/** How a gate's log links its packets (scripts/process_run.py, record_gate_traffic_log). */
module GateLog {
  import opened Options
  import opened TraceLinks
  import opened Trace

  /** What a log line says it received (source and hash) and sent (hash). */
  datatype Entry = Entry(line: nat, received: Option<(int, int)>, sent: Option<int>)

  /** The query for a packet: of this system, not in any log yet, with this hash, and for a
      received packet from this source to this system. */
  predicate Asked(row: Row, system: int, src: Option<int>, hash: int) {
    && row.system == system && row.logLine.None? && row.hash == hash
    && (src.Some? ==> row.src == src && row.dest == Some(system))
  }

  /** The packet with the smallest id that answers the query. */
  function Chosen(rows: seq<Row>, system: int, src: Option<int>, hash: int): (r: Option<Id>)
    ensures r.Some? ==> r.value < |rows| && Asked(rows[r.value], system, src, hash)
    ensures forall i :: 0 <= i < (if r.Some? then r.value else |rows|) ==> !Asked(rows[i], system, src, hash)
  {
    if rows == [] then None
    else
      var rest := Chosen(rows[..|rows| - 1], system, src, hash);
      if rest.Some? then rest
      else if Asked(rows[|rows| - 1], system, src, hash) then Some(|rows| - 1) else None
  }

  /** The packet found, if any, is marked with the line. */
  function Marked(rows: seq<Row>, id: Option<Id>, line: nat): (r: seq<Row>)
    requires id.Some? ==> id.value < |rows|
    ensures |r| == |rows|
  {
    if id.None? then rows else rows[id.value := rows[id.value].(logLine := Some(line))]
  }

  /** A log as far as it was read: the marked table and the links to be made. */
  datatype Progress = Progress(rows: seq<Row>, links: seq<(Id, Id)>)

  function ReadEntry(p: Progress, system: int, e: Entry): (r: Progress)
    ensures |r.rows| == |p.rows|
  {
    var inId := if e.received.None? then None else Chosen(p.rows, system, Some(e.received.value.0), e.received.value.1);
    var rows := Marked(p.rows, inId, e.line);
    var outId := if e.sent.None? then None else Chosen(rows, system, None, e.sent.value);
    Progress(Marked(rows, outId, e.line),
             if inId.Some? && outId.Some? then p.links + [(inId.value, outId.value)] else p.links)
  }

  function ReadLog(rows: seq<Row>, system: int, log: seq<Entry>): (r: Progress)
    ensures |r.rows| == |rows|
  {
    if log == [] then Progress(rows, []) else ReadEntry(ReadLog(rows, system, log[..|log| - 1]), system, log[|log| - 1])
  }

  /** The first k links made. */
  function WithLinks(rows: seq<Row>, links: seq<(Id, Id)>): (r: seq<Row>)
    requires forall l :: l in links ==> l.0 < |rows|
    ensures |r| == |rows|
  {
    if links == [] then rows
    else
      var l := links[|links| - 1];
      WithLinks(rows, links[..|links| - 1])[l.0 := WithLinks(rows, links[..|links| - 1])[l.0].(next := Some(l.1))]
  }

  /** Between logs: links are injective and stay within the table, and join logged packets. */
  predicate LogState(rows: seq<Row>) {
    && Closed(LinksOf(rows)) && Injective(LinksOf(rows))
    && forall i :: 0 <= i < |rows| && rows[i].next.Some? ==>
        rows[i].logLine.Some? && rows[rows[i].next.value].logLine.Some?
  }

  /** While a log is read: pending links join packets of this system that carry the same log line,
      no packet is in two of them on the same side, and none of them was linked before. */
  predicate Pending(p: Progress, system: int) {
    && LogState(p.rows)
    && (forall l :: l in p.links ==>
          && l.0 < |p.rows| && l.1 < |p.rows| && l.0 != l.1
          && p.rows[l.0].system == p.rows[l.1].system == system
          && p.rows[l.0].logLine.Some? && p.rows[l.0].logLine == p.rows[l.1].logLine
          && p.rows[l.0].next.None? && !Target(LinksOf(p.rows), l.1))
    && (forall i, j :: 0 <= i < j < |p.links| ==> p.links[i].0 != p.links[j].0 && p.links[i].1 != p.links[j].1)
  }

  lemma MarkKeeps(p: Progress, system: int, id: Id, line: nat)
    requires Pending(p, system) && id < |p.rows| && p.rows[id].logLine.None?
    ensures Pending(p.(rows := Marked(p.rows, Some(id), line)), system)
    ensures LinksOf(Marked(p.rows, Some(id), line)) == LinksOf(p.rows)
    ensures forall l :: l in p.links ==> l.0 != id && l.1 != id
    ensures p.rows[id].next.None? && !Target(LinksOf(p.rows), id)
  {
    var rows := Marked(p.rows, Some(id), line);
    assert LinksOf(rows) == LinksOf(p.rows);
  }

  lemma EntryKeeps(p: Progress, system: int, e: Entry)
    requires Pending(p, system)
    ensures Pending(ReadEntry(p, system, e), system)
  {
    var inId := if e.received.None? then None else Chosen(p.rows, system, Some(e.received.value.0), e.received.value.1);
    if inId.Some? {
      MarkKeeps(p, system, inId.value, e.line);
    }
    var q := p.(rows := Marked(p.rows, inId, e.line));
    var outId := if e.sent.None? then None else Chosen(q.rows, system, None, e.sent.value);
    if outId.Some? {
      MarkKeeps(q, system, outId.value, e.line);
    }
  }

  lemma {:induction false} LogKeeps(rows: seq<Row>, system: int, log: seq<Entry>)
    requires LogState(rows)
    ensures Pending(ReadLog(rows, system, log), system)
  {
    if log != [] {
      LogKeeps(rows, system, log[..|log| - 1]);
      EntryKeeps(ReadLog(rows, system, log[..|log| - 1]), system, log[|log| - 1]);
    }
  }

  /** The table once the first k pending links are made: exactly those links are new. */
  predicate LinkedUpTo(p: Progress, after: seq<Row>, k: nat)
    requires k <= |p.links|
  {
    && |after| == |p.rows| && LogState(after)
    && (forall i :: 0 <= i < |after| ==> after[i] == p.rows[i].(next := after[i].next))
    && (forall i :: 0 <= i < |after| && after[i].next != p.rows[i].next ==>
          && after[i].next.Some? && p.rows[i].next.None?
          && exists j :: 0 <= j < k && p.links[j] == (i, after[i].next.value))
    && (forall j :: 0 <= j < k ==> p.links[j].0 < |after| && after[p.links[j].0].next == Some(p.links[j].1))
  }

  lemma FreshLink(p: Progress, system: int, before: seq<Row>, k: nat)
    requires Pending(p, system) && k < |p.links| && LinkedUpTo(p, before, k)
    ensures var l := p.links[k]; before[l.0].next.None? && forall i :: 0 <= i < |before| ==> before[i].next != Some(l.1)
  {
    var l := p.links[k];
    assert l in p.links;
    forall i | 0 <= i < |before| ensures before[i].next != Some(l.1) {
      assert LinksOf(p.rows)[i] == p.rows[i].next;
    }
  }

  lemma LinkStep(p: Progress, system: int, before: seq<Row>, k: nat)
    requires Pending(p, system) && k < |p.links| && LinkedUpTo(p, before, k)
    ensures var l := p.links[k]; l.0 < |before| && LinkedUpTo(p, before[l.0 := before[l.0].(next := Some(l.1))], k + 1)
  {
    var l := p.links[k];
    assert l in p.links;
    FreshLink(p, system, before, k);
    var after := before[l.0 := before[l.0].(next := Some(l.1))];
    assert p.links[k] == (l.0, after[l.0].next.value);
    hide Pending;
  }

  /** Making the pending links keeps the links injective, and exactly those links are new; each
      joins a packet received with a packet sent by this system, noted by one log line. */
  lemma {:induction false} LinkingKeeps(p: Progress, system: int, k: nat)
    requires Pending(p, system) && k <= |p.links|
    ensures LinkedUpTo(p, WithLinks(p.rows, p.links[..k]), k)
  {
    if k == 0 {
      assert p.links[..0] == [];
    } else {
      LinkingKeeps(p, system, k - 1);
      assert p.links[..k][..k - 1] == p.links[..k - 1];
      LinkStep(p, system, WithLinks(p.rows, p.links[..k - 1]), k - 1);
    }
  }

  /** Line k of the log links these two packets: the first was received, from the source and with the
      hash the line gives, the second was sent, with the hash it gives for that. */
  predicate LinkedBy(rows: seq<Row>, system: int, e: Entry, l: (Id, Id)) {
    && e.received.Some? && e.sent.Some? && l.0 < |rows| && l.1 < |rows|
    && rows[l.0].src == Some(e.received.value.0) && rows[l.0].dest == Some(system)
    && rows[l.0].hash == e.received.value.1 && rows[l.1].hash == e.sent.value
    && rows[l.0].system == system && rows[l.1].system == system
    && rows[l.0].logLine == Some(e.line) && rows[l.1].logLine == Some(e.line)
  }

  /** Reading on leaves what is logged as it is. */
  lemma EntryKeepsLogged(p: Progress, system: int, e: Entry, i: nat)
    requires i < |p.rows| && p.rows[i].logLine.Some?
    ensures ReadEntry(p, system, e).rows[i] == p.rows[i]
  {
  }

  /** Every link goes from a packet received to a packet sent, as one line of the log says. */
  lemma {:induction false} LinksFollowLog(rows: seq<Row>, system: int, log: seq<Entry>, l: (Id, Id)) returns (k: nat)
    requires l in ReadLog(rows, system, log).links
    ensures k < |log| && LinkedBy(ReadLog(rows, system, log).rows, system, log[k], l)
  {
    var n := |log| - 1;
    var p, q := ReadLog(rows, system, log[..n]), ReadLog(rows, system, log);
    if l in p.links {
      k := LinksFollowLog(rows, system, log[..n], l);
      EntryKeepsLogged(p, system, log[n], l.0);
      EntryKeepsLogged(p, system, log[n], l.1);
    } else {
      k := n;
      NewLinkFollowsLine(p, system, log[n], l);
    }
  }

  lemma NewLinkFollowsLine(p: Progress, system: int, e: Entry, l: (Id, Id))
    requires l in ReadEntry(p, system, e).links && l !in p.links
    ensures LinkedBy(ReadEntry(p, system, e).rows, system, e, l)
  {
  }

  /** The lines of the log are told apart, and are new to the table. */
  ghost predicate OwnLines(rows: seq<Row>, log: seq<Entry>) {
    && (forall i, j :: 0 <= i < j < |log| ==> log[i].line != log[j].line)
    && (forall i, j :: 0 <= i < |rows| && 0 <= j < |log| ==> rows[i].logLine != Some(log[j].line))
  }

  /** What the lines read so far have marked. */
  lemma {:induction false} MarksComeFromLog(rows: seq<Row>, system: int, log: seq<Entry>, i: nat)
    requires i < |rows|
    ensures var row := ReadLog(rows, system, log).rows[i];
      row.logLine == rows[i].logLine || exists k :: 0 <= k < |log| && row.logLine == Some(log[k].line)
  {
    if log != [] {
      var n := |log| - 1;
      MarksComeFromLog(rows, system, log[..n], i);
      var p := ReadLog(rows, system, log[..n]);
      if ReadLog(rows, system, log).rows[i].logLine == p.rows[i].logLine {
        if p.rows[i].logLine != rows[i].logLine {
          var k :| 0 <= k < n && p.rows[i].logLine == Some(log[..n][k].line);
          assert log[k] == log[..n][k];
        }
      } else {
        assert ReadLog(rows, system, log).rows[i].logLine == Some(log[n].line);
      }
    }
  }

  /** And two packets that one line marks are linked. */
  lemma {:induction false} MarkedTogetherIsLinked(rows: seq<Row>, system: int, log: seq<Entry>, i: nat, j: nat, k: nat)
    requires OwnLines(rows, log) && i < j < |rows| && k < |log|
    requires var after := ReadLog(rows, system, log).rows;
      after[i].logLine == Some(log[k].line) && after[j].logLine == Some(log[k].line)
    ensures (i, j) in ReadLog(rows, system, log).links || (j, i) in ReadLog(rows, system, log).links
  {
    var n := |log| - 1;
    var p := ReadLog(rows, system, log[..n]);
    assert forall m :: 0 <= m < n ==> log[..n][m] == log[m];
    MarksComeFromLog(rows, system, log[..n], i);
    MarksComeFromLog(rows, system, log[..n], j);
    if k < n {
      OneLine(p, system, log[n], i);
      OneLine(p, system, log[n], j);
      MarkedTogetherIsLinked(rows, system, log[..n], i, j, k);
    } else {
      BothFound(p, system, log[n], i, j);
    }
  }

  lemma OneLine(p: Progress, system: int, e: Entry, i: nat)
    requires i < |p.rows|
    ensures ReadEntry(p, system, e).rows[i].logLine in {p.rows[i].logLine, Some(e.line)}
    ensures forall l :: l in p.links ==> l in ReadEntry(p, system, e).links
  {
  }

  lemma BothFound(p: Progress, system: int, e: Entry, i: nat, j: nat)
    requires i < j < |p.rows| && p.rows[i].logLine != Some(e.line) && p.rows[j].logLine != Some(e.line)
    requires ReadEntry(p, system, e).rows[i].logLine == Some(e.line)
    requires ReadEntry(p, system, e).rows[j].logLine == Some(e.line)
    ensures (i, j) in ReadEntry(p, system, e).links || (j, i) in ReadEntry(p, system, e).links
  {
  }

  // The pass over the log, in place

  /** The query, as a scan in id order. */
  method FindUnlogged(t: PacketTable, system: int, src: Option<int>, hash: int) returns (r: Option<Id>)
    ensures r == Chosen(t.rows, system, src, hash)
  {
    var i := 0;
    while i < |t.rows|
      invariant 0 <= i <= |t.rows| && Chosen(t.rows[..i], system, src, hash).None?
    {
      assert t.rows[..i + 1][..i] == t.rows[..i];
      if Asked(t.rows[i], system, src, hash) {
        return Some(i);
      }
      i := i + 1;
    }
    assert t.rows[..i] == t.rows;
    r := None;
  }

  /** One line of the log. */
  method RecordEntry(t: PacketTable, system: int, e: Entry, links: seq<(Id, Id)>) returns (r: seq<(Id, Id)>)
    modifies t
    ensures Progress(t.rows, r) == ReadEntry(Progress(old(t.rows), links), system, e)
  {
    var inId, outId := None, None;
    if e.received.Some? {
      inId := FindUnlogged(t, system, Some(e.received.value.0), e.received.value.1);
      if inId.Some? {
        t.rows := t.rows[inId.value := t.rows[inId.value].(logLine := Some(e.line))];
      }
    }
    if e.sent.Some? {
      outId := FindUnlogged(t, system, None, e.sent.value);
      if outId.Some? {
        t.rows := t.rows[outId.value := t.rows[outId.value].(logLine := Some(e.line))];
      }
    }
    r := if inId.Some? && outId.Some? then links + [(inId.value, outId.value)] else links;
  }

  /** Mark packets line by line. */
  method ReadLines(t: PacketTable, system: int, log: seq<Entry>) returns (links: seq<(Id, Id)>)
    modifies t
    ensures Progress(t.rows, links) == ReadLog(old(t.rows), system, log)
  {
    ghost var before := t.rows;
    links := [];
    var i := 0;
    while i < |log|
      invariant 0 <= i <= |log| && Progress(t.rows, links) == ReadLog(before, system, log[..i])
    {
      assert log[..i + 1][..i] == log[..i];
      links := RecordEntry(t, system, log[i], links);
      i := i + 1;
    }
    assert log[..i] == log;
  }

  /** Make all links. */
  method MakeLinks(t: PacketTable, links: seq<(Id, Id)>)
    requires forall l :: l in links ==> l.0 < |t.rows|
    modifies t
    ensures t.rows == WithLinks(old(t.rows), links)
  {
    ghost var before := t.rows;
    var k := 0;
    assert links[..0] == [];
    while k < |links|
      invariant 0 <= k <= |links| && t.rows == WithLinks(before, links[..k])
    {
      assert links[..k + 1][..k] == links[..k];
      t.rows := t.rows[links[k].0 := t.rows[links[k].0].(next := Some(links[k].1))];
      k := k + 1;
    }
    assert links[..k] == links;
  }

  /** record_gate_traffic_log: mark packets line by line, then make all links. */
  method RecordGateLog(t: PacketTable, system: int, log: seq<Entry>)
    requires LogState(t.rows)
    modifies t
    ensures LogState(t.rows)
    ensures var p := ReadLog(old(t.rows), system, log);
      Pending(p, system) && t.rows == WithLinks(p.rows, p.links)
  {
    LogKeeps(t.rows, system, log);
    hide ReadLog;
    var links := ReadLines(t, system, log);
    ghost var p := Progress(t.rows, links);
    LinkingKeeps(p, system, |links|);
    assert links[..|links|] == links;
    MakeLinks(t, links);
  }

  /** All gate logs and then the trace: every send is linked or marked failed, links stay
      injective, the choices of the trace are greedy at every step, and it stops exactly when a send
      to be traced lacks source or destination. */
  method RecordAndTrace(t: PacketTable, logs: seq<(int, seq<Entry>)>)
    returns (ok: bool, ghost logged: seq<Row>, ghost states: seq<seq<Row>>)
    requires LogState(t.rows)
    modifies t
    ensures LogState(logged) && t.Linked() && Extends(logged, t.rows) && Greedy(logged, t.rows)
    ensures GreedyRun(states) && states[0] == logged && states[|states| - 1] == t.rows
    ensures ok <==> forall s :: s in NeedSet(logged) ==> logged[s].src.Some? && logged[s].dest.Some?
    ensures ok ==> forall s :: 0 <= s < |t.rows| && t.rows[s].isSend ==> t.rows[s].next.Some? || t.rows[s].traceFailed
    ensures forall s :: 0 <= s < |t.rows| && t.rows[s].next != logged[s].next ==>
      t.rows[s].next.Some? && t.rows[s].next.value < |t.rows| && Joins(t.rows[s], t.rows[t.rows[s].next.value])
  {
    for i := 0 to |logs|
      invariant LogState(t.rows)
    {
      RecordGateLog(t, logs[i].0, logs[i].1);
    }
    logged := t.rows;
    ok, states := t.TracePackets();
    forall s | 0 <= s < |t.rows| && t.rows[s].next != logged[s].next
      ensures t.rows[s].next.Some? && t.rows[s].next.value < |t.rows| && Joins(t.rows[s], t.rows[t.rows[s].next.value])
    {
      GreedyJoins(logged, t.rows, s);
    }
  }
}
