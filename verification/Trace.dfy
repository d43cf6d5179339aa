/** The tracing passes of scripts/process_run.py over the packets table. */
module Trace {
  import opened Options
  import opened TraceLinks

  const ROW_CACHE_SIZE := 50000
  const TIME_SLACK := 15.0
  const CYCLE_LIMIT := 10

  /** A row of the packets table; its id is its position. */
  datatype Row = Row(system: int, time: real, proto: int, hash: int, isSend: bool,
                     src: Option<int>, dest: Option<int>, logLine: Option<nat>,
                     next: Option<Id>, terminal: Option<Id>, traceFailed: bool)

  function LinksOf(rows: seq<Row>): (links: Links)
    ensures |links| == |rows| && forall i :: 0 <= i < |rows| ==> links[i] == rows[i].next
  {
    seq(|rows|, i requires 0 <= i < |rows| => rows[i].next)
  }

  // Matching sends with receives

  /** What the query asks of a receive for a send, besides being free. NULL equals nothing. */
  predicate Matches(s: Row, r: Row) {
    && !r.isSend
    && s.src.Some? && r.src == s.src
    && s.dest.Some? && r.dest == s.dest
    && r.proto == s.proto && r.hash == s.hash
    && s.time - TIME_SLACK <= r.time <= s.time + TIME_SLACK
    && r.system != s.system
  }

  /** A link made joins a packet sent by one system with one received by another within 15 s: the same
      data, protocol, source and destination, both known. */
  predicate Joins(s: Row, r: Row) {
    && s.isSend && !r.isSend && s.system != r.system && -15.0 <= r.time - s.time <= 15.0
    && s.hash == r.hash && s.proto == r.proto && s.src == r.src && s.dest == r.dest && r.src.Some? && r.dest.Some?
  }

  predicate Free(rows: seq<Row>, id: Id) {
    !Target(LinksOf(rows), id)
  }

  predicate Needing(row: Row) {
    row.isSend && !row.traceFailed && row.next.None?
  }

  function NeedSet(rows: seq<Row>): set<Id> {
    set i: Id | i < |rows| && Needing(rows[i])
  }

  /** The columns no tracing pass writes, and links once made. */
  predicate Extends(before: seq<Row>, after: seq<Row>) {
    && |after| == |before|
    && forall i :: 0 <= i < |before| ==>
         && after[i] == before[i].(next := after[i].next, traceFailed := after[i].traceFailed)
         && (before[i].next.Some? ==> after[i].next == before[i].next)
         && (before[i].traceFailed ==> after[i].traceFailed)
  }

  /** Every link and every failure added since before is the greedy one: a linked receive matches
      its send, and any receive that would have been a better choice is taken. */
  predicate Greedy(before: seq<Row>, after: seq<Row>)
    requires Extends(before, after)
  {
    forall s :: 0 <= s < |after| ==>
      && (after[s].next != before[s].next ==>
            && after[s].isSend && after[s].next.value < |after| && Matches(after[s], after[after[s].next.value])
            && forall r :: 0 <= r < |after| && after[r].time < after[after[s].next.value].time ==>
                 Matches(after[s], after[r]) ==> Target(LinksOf(after), r))
      && (after[s].traceFailed != before[s].traceFailed ==>
            forall r :: 0 <= r < |after| && Matches(after[s], after[r]) ==> Target(LinksOf(after), r))
  }

  /** That is exactly what the query asks of a receive for a send. */
  lemma MatchesIff(s: Row, r: Row)
    requires s.isSend
    ensures Matches(s, r) <==> Joins(s, r)
  {
  }

  /** So every link added joins such packets. */
  lemma GreedyJoins(before: seq<Row>, after: seq<Row>, s: Id)
    requires Extends(before, after) && Greedy(before, after) && s < |after| && after[s].next != before[s].next
    ensures after[s].next.Some? && after[s].next.value < |after| && Joins(after[s], after[after[s].next.value])
  {
    assert before[s].next.None?;
  }

  /** The receive the query gives for a send: free, matching, and none that is both is earlier. */
  predicate Best(rows: seq<Row>, s: Id, r: Id)
    requires s < |rows|
  {
    && r < |rows| && Matches(rows[s], rows[r]) && Free(rows, r)
    && forall q :: 0 <= q < |rows| && Matches(rows[s], rows[q]) && Free(rows, q) ==> rows[r].time <= rows[q].time
  }

  /** One packet traced: linked to the best receive of that moment, or failed as there is none. */
  ghost predicate GreedyStep(before: seq<Row>, after: seq<Row>, s: Id) {
    && s in NeedSet(before)
    && ((exists r: Id :: Best(before, s, r) && after == before[s := before[s].(next := Some(r))])
        || ((forall q :: 0 <= q < |before| && Matches(before[s], before[q]) ==> !Free(before, q))
            && after == before[s := before[s].(traceFailed := true)]))
  }

  ghost predicate GreedyMove(before: seq<Row>, after: seq<Row>) {
    exists s :: s in NeedSet(before) && GreedyStep(before, after, s)
  }

  /** The table after each packet traced. */
  ghost predicate GreedyRun(states: seq<seq<Row>>) {
    && states != []
    && forall k :: 0 <= k < |states| - 1 ==> GreedyMove(states[k], states[k + 1])
  }

  class PacketTable {
    var rows: seq<Row>

    constructor (rows: seq<Row>)
      ensures this.rows == rows
    {
      this.rows := rows;
    }

    ghost predicate Linked()
      reads this
    {
      Closed(LinksOf(rows)) && Injective(LinksOf(rows))
    }

    /** The earliest free receive that matches a send. */
    method FindReceive(s: Id) returns (r: Option<Id>)
      requires s < |rows|
      ensures r.Some? ==> r.value < |rows| && Matches(rows[s], rows[r.value]) && Free(rows, r.value)
      ensures r.Some? ==> forall q :: 0 <= q < |rows| && Matches(rows[s], rows[q]) && Free(rows, q) ==>
          rows[r.value].time <= rows[q].time
      ensures r.None? ==> forall q :: 0 <= q < |rows| && Matches(rows[s], rows[q]) ==> !Free(rows, q)
    {
      r := None;
      var i := 0;
      while i < |rows|
        invariant 0 <= i <= |rows|
        invariant r.Some? ==> r.value < i && Matches(rows[s], rows[r.value]) && Free(rows, r.value)
        invariant r.Some? ==>
            forall q :: 0 <= q < i && Matches(rows[s], rows[q]) && Free(rows, q) ==> rows[r.value].time <= rows[q].time
        invariant r.None? ==> forall q :: 0 <= q < i && Matches(rows[s], rows[q]) ==> !Free(rows, q)
      {
        if Matches(rows[s], rows[i]) && Free(rows, i) && (r.None? || rows[i].time < rows[r.value].time) {
          r := Some(i);
        }
        i := i + 1;
      }
    }

    /** A chunk of the packets that still need tracing. */
    method FetchNeeding() returns (chunk: seq<Id>)
      ensures forall i :: 0 <= i < |chunk| ==> chunk[i] in NeedSet(rows)
      ensures forall i, j :: 0 <= i < j < |chunk| ==> chunk[i] != chunk[j]
      ensures |chunk| <= ROW_CACHE_SIZE
      ensures chunk == [] ==> NeedSet(rows) == {}
    {
      chunk := [];
      var i := 0;
      while i < |rows| && |chunk| < ROW_CACHE_SIZE
        invariant 0 <= i <= |rows| && |chunk| <= ROW_CACHE_SIZE
        invariant forall k :: 0 <= k < |chunk| ==> chunk[k] < i && chunk[k] in NeedSet(rows)
        invariant forall j, k :: 0 <= j < k < |chunk| ==> chunk[j] != chunk[k]
        invariant chunk == [] ==> forall k :: 0 <= k < i ==> !Needing(rows[k])
      {
        if Needing(rows[i]) {
          chunk := chunk + [i];
        }
        i := i + 1;
      }
    }

    /** One round of trace_packets on a packet that needs tracing and knows where it goes. */
    method TraceOne(s: Id, ghost before: seq<Row>)
      requires Linked() && s in NeedSet(rows) && Extends(before, rows) && Greedy(before, rows)
      requires rows[s].src.Some? && rows[s].dest.Some?
      modifies this
      ensures Linked() && Extends(before, rows) && Greedy(before, rows)
      ensures NeedSet(rows) == old(NeedSet(rows)) - {s}
      ensures GreedyStep(old(rows), rows, s)
    {
      var r := FindReceive(s);
      if r.Some? {
        assert Best(rows, s, r.value);
        LinkKeeps(before, rows, s, r.value);
        rows := rows[s := rows[s].(next := r)];
      } else {
        FailKeeps(before, rows, s);
        rows := rows[s := rows[s].(traceFailed := true)];
      }
    }

    /** trace_packets: false stands for the exception about a packet without source or destination. */
    method TracePackets() returns (ok: bool, ghost states: seq<seq<Row>>)
      requires Linked()
      modifies this
      ensures states != [] && GreedyRun(states) && states[0] == old(rows) && states[|states| - 1] == rows
      ensures Linked() && Extends(old(rows), rows) && Greedy(old(rows), rows)
      ensures ok <==> forall s :: s in old(NeedSet(rows)) ==> old(rows)[s].src.Some? && old(rows)[s].dest.Some?
      ensures ok ==> forall s :: 0 <= s < |rows| && rows[s].isSend ==> rows[s].next.Some? || rows[s].traceFailed
    {
      ghost var before := rows;
      states := [rows];
      assert Extends(before, rows) && Greedy(before, rows) && GreedyRun(states);
      hide Greedy, GreedyRun, GreedyStep, Closed, Injective;
      var chunk: seq<Id>, curr := [], 0;
      while true
        invariant states != [] && GreedyRun(states) && states[0] == before && states[|states| - 1] == rows
        invariant Linked() && Extends(before, rows) && Greedy(before, rows)
        invariant NeedSet(rows) <= NeedSet(before)
        invariant forall s :: s in NeedSet(before) - NeedSet(rows) ==> before[s].src.Some? && before[s].dest.Some?
        invariant 0 <= curr <= |chunk|
        invariant forall i :: curr <= i < |chunk| ==> chunk[i] in NeedSet(rows)
        invariant forall i, j :: 0 <= i < j < |chunk| ==> chunk[i] != chunk[j]
        decreases |NeedSet(rows)|
      {
        if curr >= |chunk| {
          chunk := FetchNeeding();
          curr := 0;
          if chunk == [] {
            NoneNeeding(rows);
            return true, states;
          }
        }
        var s := chunk[curr];
        curr := curr + 1;
        if rows[s].src.None? || rows[s].dest.None? {
          assert s in NeedSet(before);
          return false, states;
        }
        ghost var was := states;
        TraceOne(s, before);
        states := states + [rows];
        OneMoreStep(was, rows, s);
      }
    }

    // The cycle check

    /** check_trace: follow a chain for up to limit packets. */
    method CheckTrace(start: Id, limit: nat) returns (ok: bool)
      requires Closed(LinksOf(rows)) && start < |rows| && limit > 0
      ensures ok <==> Walk(LinksOf(rows), start, limit - 1).None?
    {
      ghost var links := LinksOf(rows);
      var curr, cycles := Some(start), 0;
      while curr.Some? && cycles < limit
        invariant cycles <= limit && (curr.Some? ==> curr.value < |rows|)
        invariant curr == Walk(links, start, cycles)
        invariant cycles > 0 ==> Walk(links, start, cycles - 1).Some?
      {
        WalkAdd(links, start, cycles, 1);
        assert Walk(links, curr.value, 1) == links[curr.value];
        curr := rows[curr.value].next;
        cycles := cycles + 1;
      }
      if cycles < limit {
        WalkStaysNone(links, start, cycles, limit - 1);
      }
      ok := cycles < limit;
    }

    /** check_for_trace_cycles: the sends nobody links to, checked one by one. With injective links
        it reports exactly the chains of ten packets or more, and never a cycle. */
    method CheckForCycles() returns (bad: seq<Id>)
      requires Linked()
      ensures forall id: Id :: id in bad <==>
        && id < |rows| && rows[id].isSend && !Target(LinksOf(rows), id)
        && Walk(LinksOf(rows), id, 9).Some?
      ensures forall id :: id in bad ==> Ends(LinksOf(rows), id)
    {
      bad := [];
      var i := 0;
      while i < |rows|
        invariant 0 <= i <= |rows|
        invariant forall id: Id :: id in bad <==>
          && id < i && rows[id].isSend && !Target(LinksOf(rows), id)
          && Walk(LinksOf(rows), id, 9).Some?
        invariant forall id :: id in bad ==> Ends(LinksOf(rows), id)
      {
        if rows[i].isSend && !Target(LinksOf(rows), i) {
          StartsNeverCycle(LinksOf(rows), i);
          var ok := CheckTrace(i, CYCLE_LIMIT);
          if !ok {
            bad := bad + [i];
          }
        }
        i := i + 1;
      }
    }

    // The end of every chain

    /** Every recorded terminal is the end of its packet's chain, and end packets have theirs. */
    ghost predicate TerminalsRight()
      reads this
      requires Closed(LinksOf(rows))
    {
      forall i :: 0 <= i < |rows| ==>
        && (rows[i].next.None? ==> rows[i].terminal.Some?)
        && (rows[i].terminal.Some? ==> IsEnd(LinksOf(rows), i, rows[i].terminal.value))
    }

    /** Terminal packets terminate at themselves. */
    method MarkEnds()
      requires Closed(LinksOf(rows)) && forall i :: 0 <= i < |rows| ==> rows[i].terminal.None?
      modifies this
      ensures LinksOf(rows) == old(LinksOf(rows)) && SameButTerminals(old(rows), rows) && TerminalsRight()
    {
      ghost var before := rows;
      var i := 0;
      while i < |rows|
        invariant 0 <= i <= |rows| && SameButTerminals(before, rows)
        invariant forall k :: 0 <= k < |rows| ==>
          rows[k].terminal == if k < i && rows[k].next.None? then Some(k) else None
      {
        if rows[i].next.None? {
          rows := rows[i := rows[i].(terminal := Some(i))];
        }
        i := i + 1;
      }
      assert LinksOf(rows) == LinksOf(before);
      forall k | 0 <= k < |rows| && rows[k].next.None? ensures IsEnd(LinksOf(rows), k, k) {
        assert Walk(LinksOf(rows), k, 0) == Some(k);
      }
    }

    /** The inner loop: hop forward until a packet knows its terminal. None stands for the
        exception "Reached end of trace without finding terminal packet". */
    method FindTerminal(start: Id) returns (t: Option<Id>)
      requires Closed(LinksOf(rows)) && TerminalsRight() && start < |rows| && Ends(LinksOf(rows), start)
      ensures t.Some? && IsEnd(LinksOf(rows), start, t.value)
    {
      ghost var links := LinksOf(rows);
      var hop := start;
      ghost var k, left := 0, |rows|;
      while true
        invariant left >= 0 && hop < |rows| && Walk(links, start, k) == Some(hop) && Walk(links, hop, left).None?
        decreases left
      {
        var row := rows[hop];
        if row.terminal.Some? {
          EndFurther(links, start, k, row.terminal.value);
          return row.terminal;
        } else if row.next.None? {
          return None;
        }
        WalkAdd(links, start, k, 1);
        assert Walk(links, hop, 1) == links[hop];
        hop, k, left := row.next.value, k + 1, left - 1;
      }
    }

    /** Ids and next hops of packets without a terminal, last ids first. */
    method FetchOpen() returns (chunk: seq<(Id, Id)>)
      requires Closed(LinksOf(rows)) && TerminalsRight()
      ensures forall i :: 0 <= i < |chunk| ==> chunk[i].0 in OpenSet(rows) && rows[chunk[i].0].next == Some(chunk[i].1)
      ensures forall i, j :: 0 <= i < j < |chunk| ==> chunk[i].0 > chunk[j].0
      ensures |chunk| <= ROW_CACHE_SIZE
      ensures chunk == [] ==> OpenSet(rows) == {}
    {
      chunk := [];
      var i := |rows|;
      while i > 0 && |chunk| < ROW_CACHE_SIZE
        invariant 0 <= i <= |rows| && |chunk| <= ROW_CACHE_SIZE
        invariant forall k :: 0 <= k < |chunk| ==>
          chunk[k].0 >= i && chunk[k].0 in OpenSet(rows) && rows[chunk[k].0].next == Some(chunk[k].1)
        invariant forall j, k :: 0 <= j < k < |chunk| ==> chunk[j].0 > chunk[k].0
        invariant chunk == [] ==> forall k :: i <= k < |rows| ==> rows[k].terminal.Some?
      {
        i := i - 1;
        if rows[i].next.Some? && rows[i].terminal.None? {
          chunk := chunk + [(i, rows[i].next.value)];
        }
      }
    }

    /** One round of the loop: an open packet gets the last packet of its chain. */
    method LocateOne(id: Id, hop: Id, ghost before: seq<Row>, ghost links: Links) returns (found: bool)
      requires Closed(links) && LinksOf(rows) == links && SameButTerminals(before, rows) && TerminalsRight()
      requires forall i: Id :: i < |links| ==> Ends(links, i)
      requires id in OpenSet(rows) && rows[id].next == Some(hop)
      modifies this
      ensures found && LinksOf(rows) == links && SameButTerminals(before, rows) && TerminalsRight()
      ensures OpenSet(rows) == old(OpenSet(rows)) - {id} && |rows| == |old(rows)|
      ensures forall i :: 0 <= i < |rows| && i != id ==> rows[i] == old(rows)[i]
    {
      assert links[id] == Some(hop);
      var t := FindTerminal(hop);
      if t.None? {
        return false;
      }
      EndOfNext(links, id, t.value);
      SetTerminal(rows, id, t.value);
      rows := rows[id := rows[id].(terminal := t)];
      found := true;
    }

    /** locate_trace_terminations on acyclic links: every packet gets the last packet of its chain,
        and the exception is not reached. */
    method LocateTerminations() returns (ok: bool)
      requires Closed(LinksOf(rows)) && Acyclic(LinksOf(rows))
      requires forall i :: 0 <= i < |rows| ==> rows[i].terminal.None?
      modifies this
      ensures ok && SameButTerminals(old(rows), rows) && LinksOf(rows) == old(LinksOf(rows))
      ensures forall i :: 0 <= i < |rows| ==> rows[i].terminal.Some? && IsEnd(LinksOf(rows), i, rows[i].terminal.value)
      ensures forall i, e: Id :: 0 <= i < |rows| && IsEnd(LinksOf(rows), i, e) ==> rows[i].terminal == Some(e)
    {
      ghost var before, links := rows, LinksOf(rows);
      AcyclicIffEnds(links);
      hide Acyclic, Ends, IsEnd, Closed;
      MarkEnds();
      var chunk: seq<(Id, Id)>, curr := [], 0;
      while true
        invariant LinksOf(rows) == links && SameButTerminals(before, rows) && TerminalsRight()
        invariant 0 <= curr <= |chunk|
        invariant forall i :: curr <= i < |chunk| ==>
            chunk[i].0 in OpenSet(rows) && rows[chunk[i].0].next == Some(chunk[i].1)
        invariant forall i, j :: 0 <= i < j < |chunk| ==> chunk[i].0 > chunk[j].0
        decreases |OpenSet(rows)|
      {
        if curr >= |chunk| {
          chunk := FetchOpen();
          curr := 0;
          if chunk == [] {
            NoneOpen(rows);
            TheEnds(rows);
            return true;
          }
        }
        var id, hop := chunk[curr].0, chunk[curr].1;
        curr := curr + 1;
        var found := LocateOne(id, hop, before, links);
        if !found {
          return false;
        }
      }
    }
  }

  predicate SameButTerminals(before: seq<Row>, after: seq<Row>) {
    |after| == |before| && forall i :: 0 <= i < |before| ==> after[i] == before[i].(terminal := after[i].terminal)
  }

  function OpenSet(rows: seq<Row>): set<Id> {
    set i: Id | i < |rows| && rows[i].terminal.None?
  }

  /** A terminal that ends the chain is the only one that does. */
  lemma TheEnds(rows: seq<Row>)
    requires Closed(LinksOf(rows))
    requires forall i :: 0 <= i < |rows| ==> rows[i].terminal.Some? && IsEnd(LinksOf(rows), i, rows[i].terminal.value)
    ensures forall i, e: Id :: 0 <= i < |rows| && IsEnd(LinksOf(rows), i, e) ==> rows[i].terminal == Some(e)
  {
    forall i, e: Id | 0 <= i < |rows| && IsEnd(LinksOf(rows), i, e)
      ensures rows[i].terminal == Some(e)
    {
      EndUnique(LinksOf(rows), i, rows[i].terminal.value, e);
    }
  }

  lemma NoneOpen(rows: seq<Row>)
    requires OpenSet(rows) == {}
    ensures forall i :: 0 <= i < |rows| ==> rows[i].terminal.Some?
  {
    forall i | 0 <= i < |rows| ensures rows[i].terminal.Some? {
      assert i !in OpenSet(rows);
    }
  }

  lemma SetTerminal(rows: seq<Row>, id: Id, t: Id)
    requires id in OpenSet(rows)
    ensures var after := rows[id := rows[id].(terminal := Some(t))];
      && LinksOf(after) == LinksOf(rows) && SameButTerminals(rows, after)
      && OpenSet(after) == OpenSet(rows) - {id}
  {
    var after := rows[id := rows[id].(terminal := Some(t))];
    assert LinksOf(after) == LinksOf(rows);
  }

  lemma EndFurther(links: Links, start: Id, k: nat, e: Id)
    requires Closed(links) && start < |links| && Walk(links, start, k).Some?
    requires IsEnd(links, Walk(links, start, k).value, e)
    ensures IsEnd(links, start, e)
  {
    var hop := Walk(links, start, k).value;
    var j: nat :| Walk(links, hop, j) == Some(e);
    WalkAdd(links, start, k, j);
    assert Walk(links, start, k + j) == Some(e);
  }

  lemma OneMoreStep(states: seq<seq<Row>>, rows: seq<Row>, s: Id)
    requires states != [] && GreedyRun(states) && GreedyStep(states[|states| - 1], rows, s)
    ensures GreedyRun(states + [rows])
  {
    assert GreedyMove(states[|states| - 1], rows);
    hide GreedyStep, GreedyMove;
    var all := states + [rows];
    forall k | 0 <= k < |all| - 1 ensures GreedyMove(all[k], all[k + 1]) {
      assert all[k] == states[k];
      assert k < |states| - 1 ==> all[k + 1] == states[k + 1];
    }
  }

  lemma NoneNeeding(rows: seq<Row>)
    requires NeedSet(rows) == {}
    ensures forall s :: 0 <= s < |rows| && rows[s].isSend ==> rows[s].next.Some? || rows[s].traceFailed
  {
    forall s | 0 <= s < |rows| && rows[s].isSend
      ensures rows[s].next.Some? || rows[s].traceFailed
    {
      assert s !in NeedSet(rows);
    }
  }

  lemma TargetsGrow(a: Links, b: Links, id: Id)
    requires |a| == |b| && forall i :: 0 <= i < |a| && a[i].Some? ==> b[i] == a[i]
    requires Target(a, id)
    ensures Target(b, id)
  {
    var p :| 0 <= p < |a| && a[p] == Some(id);
    assert b[p] == Some(id);
  }

  lemma LinkExtends(before: seq<Row>, rows: seq<Row>, s: Id, r: Id)
    requires Closed(LinksOf(rows)) && Injective(LinksOf(rows)) && Extends(before, rows)
    requires s in NeedSet(rows) && r < |rows| && Free(rows, r)
    ensures var after := rows[s := rows[s].(next := Some(r))];
      && Closed(LinksOf(after)) && Injective(LinksOf(after)) && Extends(before, after)
      && NeedSet(after) == NeedSet(rows) - {s}
      && forall id: Id :: Target(LinksOf(rows), id) || id == r ==> Target(LinksOf(after), id)
  {
    var after := rows[s := rows[s].(next := Some(r))];
    forall id: Id | Target(LinksOf(rows), id) ensures Target(LinksOf(after), id) {
      TargetsGrow(LinksOf(rows), LinksOf(after), id);
    }
    assert LinksOf(after)[s] == Some(r);
  }

  lemma LinkKeeps(before: seq<Row>, rows: seq<Row>, s: Id, r: Id)
    requires Closed(LinksOf(rows)) && Injective(LinksOf(rows)) && Extends(before, rows) && Greedy(before, rows)
    requires s in NeedSet(rows) && r < |rows| && Matches(rows[s], rows[r]) && Free(rows, r)
    requires forall q :: 0 <= q < |rows| && Matches(rows[s], rows[q]) && Free(rows, q) ==> rows[r].time <= rows[q].time
    ensures var after := rows[s := rows[s].(next := Some(r))];
      && Closed(LinksOf(after)) && Injective(LinksOf(after)) && Extends(before, after) && Greedy(before, after)
      && NeedSet(after) == NeedSet(rows) - {s}
  {
    LinkExtends(before, rows, s, r);
    hide Closed, Injective, Target;
  }

  lemma FailKeeps(before: seq<Row>, rows: seq<Row>, s: Id)
    requires Closed(LinksOf(rows)) && Injective(LinksOf(rows)) && Extends(before, rows) && Greedy(before, rows)
    requires s in NeedSet(rows)
    requires forall q :: 0 <= q < |rows| && Matches(rows[s], rows[q]) ==> !Free(rows, q)
    ensures var after := rows[s := rows[s].(traceFailed := true)];
      && LinksOf(after) == LinksOf(rows) && Extends(before, after) && Greedy(before, after)
      && NeedSet(after) == NeedSet(rows) - {s}
  {
    var after := rows[s := rows[s].(traceFailed := true)];
    assert LinksOf(after) == LinksOf(rows);
  }
}
