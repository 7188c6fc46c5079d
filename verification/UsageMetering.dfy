/** Usage metering: recording with request ids, totals over half-open windows,
    and retention by compacting the row slice in place. */
module UsageMetering {
  import opened Options
  import opened Text
  import opened Ordering
  import opened Int64

  /** Instants as integers; an event without one is stamped when recorded. */
  type Time = int

  datatype MeterEvent = MeterEvent(subject: string, metric: string, quantity: int, occurredAt: Option<Time>,
                                   requestId: string)

  datatype Row = Row(subject: string, metric: string, quantity: int, at: Time, requestId: string)

  function RequestKey(subject: string, metric: string, requestId: string): string {
    subject + "|" + metric + "|" + requestId
  }

  /** Subjects and metrics without '|' keep request ids apart. */
  lemma {:induction false} RequestKeysApart(s: string, m: string, r: string, s': string, m': string, r': string)
    requires '|' !in s && '|' !in m && '|' !in s' && '|' !in m'
    ensures RequestKey(s, m, r) == RequestKey(s', m', r') <==> s == s' && m == m' && r == r'
  {
    if RequestKey(s, m, r) == RequestKey(s', m', r') {
      assert RequestKey(s, m, r) == s + "|" + (m + "|" + r) && RequestKey(s', m', r') == s' + "|" + (m' + "|" + r');
      JoinUnique('|', s, m + "|" + r, s', m' + "|" + r');
      JoinUnique('|', m, r, m', r');
    }
  }

  /** Otherwise two meters, each a subject and a metric, can share the key of
      non-empty request ids exactly when their joins are equal or one extends the
      other by a bar. */
  lemma {:induction false} RequestKeysClash(s: string, m: string, s': string, m': string)
    ensures (exists r, r' :: r != "" && r' != "" && RequestKey(s, m, r) == RequestKey(s', m', r')) <==>
              SharedKeys(Meter(s, m), Meter(s', m'))
  {
    var x, y := Meter(s, m), Meter(s', m');
    if SharedKeys(x, y) {
      var r, r' := MeetingIds(x, y);
      assert RequestKey(s, m, r) == RequestKey(s', m', r');
    }
    forall r, r' | RequestKey(s, m, r) == RequestKey(s', m', r') ensures SharedKeys(x, y) {
      if x != y {
        if |x| <= |y| { JoinOverlap('|', x, r, y, r'); } else { JoinOverlap('|', y, r', x, r); }
      }
    }
  }

  function Meter(subject: string, metric: string): string {
    subject + "|" + metric
  }

  predicate SharedKeys(x: string, y: string) {
    x == y || x + "|" <= y || y + "|" <= x
  }

  lemma {:induction false} MeetingIds(x: string, y: string) returns (r: string, r': string)
    requires SharedKeys(x, y)
    ensures r != "" && r' != "" && x + "|" + r == y + "|" + r'
  {
    if x == y {
      r, r' := "x", "x";
    } else if x + "|" <= y {
      r, r' := y[|x| + 1..] + "|x", "x";
      assert y == x + "|" + y[|x| + 1..];
    } else {
      r, r' := "x", x[|y| + 1..] + "|x";
      assert x == y + "|" + x[|y| + 1..];
    }
  }

  // -------------------------------------------------------------------- values

  /** Rows in recording order and the request keys seen. */
  datatype Log = Log(rows: seq<Row>, seen: set<string>)

  const EMPTY := Log([], {})

  function KeyOf(e: MeterEvent): string {
    RequestKey(e.subject, e.metric, e.requestId)
  }

  function Stored(e: MeterEvent, now: Time): Row {
    Row(e.subject, e.metric, e.quantity, if e.occurredAt.Some? then e.occurredAt.value else now, e.requestId)
  }

  predicate Repeated(l: Log, e: MeterEvent) {
    e.requestId != "" && KeyOf(e) in l.seen
  }

  function Record(l: Log, e: MeterEvent, now: Time): Log {
    if Repeated(l, e) then l
    else Log(l.rows + [Stored(e, now)], if e.requestId != "" then l.seen + {KeyOf(e)} else l.seen)
  }

  /** The rows at or after the cutoff, in order. */
  function Kept(rows: seq<Row>, before: Time): seq<Row> {
    if rows == [] then []
    else
      var r := rows[|rows| - 1];
      Kept(rows[..|rows| - 1], before) + (if r.at < before then [] else [r])
  }

  function Prune(l: Log, before: Time): Log {
    l.(rows := Kept(l.rows, before))
  }

  predicate InWindow(r: Row, start: Time, end: Time) {
    start <= r.at < end
  }

  predicate Counts(r: Row, subject: string, metric: string, start: Time, end: Time) {
    r.subject == subject && r.metric == metric && InWindow(r, start, end)
  }

  /** The usage of a subject in [start, end). */
  function Usage(rows: seq<Row>, subject: string, metric: string, start: Time, end: Time): int {
    if rows == [] then 0
    else
      var r := rows[|rows| - 1];
      Usage(rows[..|rows| - 1], subject, metric, start, end) +
      (if Counts(r, subject, metric, start, end) then r.quantity else 0)
  }

  /** The subjects with a row of the metric in the window. */
  function Subjects(rows: seq<Row>, metric: string, start: Time, end: Time): set<string> {
    set i | 0 <= i < |rows| && rows[i].metric == metric && InWindow(rows[i], start, end) :: rows[i].subject
  }

  datatype Aggregate = Aggregate(subject: string, metric: string, total: int)

  // ---------------------------------------------------------------- the repo

  class MemoryRepo {
    var rows: array<Row>
    var n: nat
    var events: set<string>

    ghost predicate Valid()
      reads this
    {
      n <= rows.Length
    }

    function Contents(): Log
      requires Valid()
      reads this, rows
    {
      Log(rows[..n], events)
    }

    constructor ()
      ensures Valid() && fresh(rows) && Contents() == EMPTY
    {
      rows := new Row[0];
      n, events := 0, {};
    }

    /** Appends in place, or to a larger copy when the slice is full. */
    method Append(r: Row)
      requires Valid()
      modifies this, rows
      ensures Valid() && (rows == old(rows) || fresh(rows)) && events == old(events)
      ensures rows[..n] == old(rows[..n]) + [r]
    {
      if n == rows.Length {
        var bigger := new Row[2 * n + 1](_ => r);
        for i := 0 to n
          invariant rows == old(rows) && rows[..] == old(rows[..]) && bigger[..i] == rows[..i]
          invariant fresh(bigger) && n == old(n) && n <= rows.Length && events == old(events)
        {
          bigger[i] := rows[i];
        }
        rows := bigger;
      }
      rows[n] := r;
      n := n + 1;
    }

    method RecordUsage(e: MeterEvent, now: Time)
      requires Valid()
      modifies this, rows
      ensures Valid() && (rows == old(rows) || fresh(rows))
      ensures Contents() == Record(old(Contents()), e, now)
      ensures events == if e.requestId == "" then old(events)
                        else old(events) + {e.subject + "|" + e.metric + "|" + e.requestId}
    {
      var key := RequestKey(e.subject, e.metric, e.requestId);
      if e.requestId != "" && key in events { return; }
      var at := now;
      if e.occurredAt.Some? { at := e.occurredAt.value; }
      Append(Row(e.subject, e.metric, e.quantity, at, e.requestId));
      if e.requestId != "" { events := events + {key}; }
    }

    method QueryByPeriod(subject: string, metric: string, start: Time, end: Time) returns (total: int)
      requires Valid()
      ensures total == Wrap64(Usage(Contents().rows, subject, metric, start, end))
    {
      total := 0;
      ghost var all := rows[..n];
      for i := 0 to n
        invariant total == Wrap64(Usage(all[..i], subject, metric, start, end))
      {
        var e := rows[i];
        assert all[..i + 1][..i] == all[..i] && all[i] == e;
        if e.subject != subject || e.metric != metric { continue; }
        if e.at < start || !(e.at < end) { continue; }
        WrapOnce(Usage(all[..i], subject, metric, start, end), e.quantity);
        total := Wrap64(total + e.quantity);
      }
      assert all[..n] == all;
    }

    /** In-place compaction: kept rows move to the front of the same array. */
    method PruneOlderThan(before: Time) returns (deleted: nat)
      requires Valid()
      modifies this, rows
      ensures Valid() && rows == old(rows)
      ensures Contents() == Prune(old(Contents()), before)
      ensures deleted == old(n) - n
    {
      ghost var all := rows[..n];
      var kept := 0;
      deleted := 0;
      for i := 0 to n
        invariant rows == old(rows) && n == old(n) && events == old(events)
        invariant 0 <= kept <= i && deleted == i - kept
        invariant rows[..kept] == Kept(all[..i], before)
        invariant rows[i..n] == all[i..]
      {
        var e := rows[i];
        assert e == rows[i..n][0] == all[i];
        assert all[..i + 1][..i] == all[..i];
        assert rows[i + 1..n] == rows[i..n][1..];
        if e.at < before {
          deleted := deleted + 1;
          continue;
        }
        rows[kept] := e;
        kept := kept + 1;
      }
      assert all[..n] == all;
      n := kept;
    }

    /** Sums per subject, listed by subject. */
    method AggregateByPeriod(metric: string, start: Time, end: Time) returns (out: seq<Aggregate>)
      requires Valid()
      ensures IsReport(Contents().rows, metric, start, end, out)
    {
      var totals := Totals(rows[..n], metric, start, end);
      var ks := SortedKeys(totals.Keys);
      out := [];
      for i := 0 to |ks|
        invariant |out| == i
        invariant forall j :: 0 <= j < i ==> ks[j] in totals && out[j] == Aggregate(ks[j], metric, totals[ks[j]])
      {
        assert ks[i] in totals.Keys;
        out := out + [Aggregate(ks[i], metric, totals[ks[i]])];
      }
      ReportFromTotals(rows[..n], metric, start, end, totals, ks, out);
    }
  }

  // -------------------------------------------------------------- aggregation

  /** The totals per subject that the first loop of the aggregation builds. */
  ghost predicate AreTotals(rows: seq<Row>, metric: string, start: Time, end: Time, totals: map<string, int>) {
    && totals.Keys == Subjects(rows, metric, start, end)
    && forall s :: s in totals ==> totals[s] == Wrap64(Usage(rows, s, metric, start, end))
  }

  method Totals(rows: seq<Row>, metric: string, start: Time, end: Time) returns (totals: map<string, int>)
    ensures AreTotals(rows, metric, start, end, totals)
  {
    hide AreTotals;
    totals := map[];
    NoTotals(metric, start, end);
    for i := 0 to |rows|
      invariant AreTotals(rows[..i], metric, start, end, totals)
    {
      var e := rows[i];
      assert rows[..i + 1] == rows[..i] + [e];
      TotalsMore(rows[..i], e, metric, start, end, totals);
      if e.metric != metric { continue; }
      if e.at < start || !(e.at < end) { continue; }
      totals := totals[e.subject := Wrap64((if e.subject in totals then totals[e.subject] else 0) + e.quantity)];
    }
    assert rows[..|rows|] == rows;
  }

  lemma {:induction false} NoTotals(metric: string, start: Time, end: Time)
    ensures AreTotals([], metric, start, end, map[])
  {
  }

  lemma {:induction false} NoRowsNoUsage(rows: seq<Row>, subject: string, metric: string, start: Time, end: Time)
    requires subject !in Subjects(rows, metric, start, end)
    ensures Usage(rows, subject, metric, start, end) == 0
  {
    if rows != [] {
      var n := |rows| - 1;
      assert forall i :: 0 <= i < n ==> rows[..n][i] == rows[i];
      assert Subjects(rows[..n], metric, start, end) <= Subjects(rows, metric, start, end);
      NoRowsNoUsage(rows[..n], subject, metric, start, end);
    }
  }

  lemma {:induction false} SubjectsMore(rows: seq<Row>, e: Row, metric: string, start: Time, end: Time)
    ensures Subjects(rows + [e], metric, start, end)
         == Subjects(rows, metric, start, end)
            + (if e.metric == metric && InWindow(e, start, end) then {e.subject} else {})
  {
    var all := rows + [e];
    assert forall i :: 0 <= i < |rows| ==> all[i] == rows[i];
    assert all[|rows|] == e;
  }

  lemma {:induction false} UsageMore(rows: seq<Row>, e: Row, subject: string, metric: string, start: Time, end: Time)
    ensures Usage(rows + [e], subject, metric, start, end)
         == Usage(rows, subject, metric, start, end)
            + (if Counts(e, subject, metric, start, end) then e.quantity else 0)
  {
    assert (rows + [e])[..|rows|] == rows;
  }

  lemma {:induction false} TotalsMore(rows: seq<Row>, e: Row, metric: string, start: Time, end: Time,
                                      totals: map<string, int>)
    requires AreTotals(rows, metric, start, end, totals)
    ensures AreTotals(rows + [e], metric, start, end,
                      if e.metric == metric && InWindow(e, start, end)
                      then totals[e.subject :=
                        Wrap64((if e.subject in totals then totals[e.subject] else 0) + e.quantity)]
                      else totals)
  {
    hide Subjects, Usage, Wrap64;
    SubjectsMore(rows, e, metric, start, end);
    if e.subject !in totals { NoRowsNoUsage(rows, e.subject, metric, start, end); }
    WrapWithin(0);
    WrapOnce(Usage(rows, e.subject, metric, start, end), e.quantity);
    forall s ensures Usage(rows + [e], s, metric, start, end)
                  == Usage(rows, s, metric, start, end) + (if Counts(e, s, metric, start, end) then e.quantity else 0)
    {
      UsageMore(rows, e, s, metric, start, end);
    }
  }

  /** Each subject with usage in the window once, in order, with its total. */
  ghost predicate IsReport(rows: seq<Row>, metric: string, start: Time, end: Time, out: seq<Aggregate>) {
    && Enumerates(seq(|out|, i requires 0 <= i < |out| => out[i].subject), Subjects(rows, metric, start, end))
    && forall i :: 0 <= i < |out| ==>
         out[i].metric == metric && out[i].total == Wrap64(Usage(rows, out[i].subject, metric, start, end))
  }

  lemma {:induction false} ReportFromTotals(rows: seq<Row>, metric: string, start: Time, end: Time,
                                            totals: map<string, int>, ks: seq<string>, out: seq<Aggregate>)
    requires AreTotals(rows, metric, start, end, totals) && Enumerates(ks, totals.Keys) && |out| == |ks|
    requires forall j :: 0 <= j < |ks| ==> ks[j] in totals && out[j] == Aggregate(ks[j], metric, totals[ks[j]])
    ensures IsReport(rows, metric, start, end, out)
  {
    assert seq(|out|, i requires 0 <= i < |out| => out[i].subject) == ks;
  }

  // ----------------------------------------------------------------- windows

  /** Totals of adjacent windows add up to the total of their union. */
  lemma {:induction false} WindowsAddUp(rows: seq<Row>, subject: string, metric: string, a: Time, b: Time, c: Time)
    requires a <= b <= c
    ensures Usage(rows, subject, metric, a, b) + Usage(rows, subject, metric, b, c) ==
            Usage(rows, subject, metric, a, c)
  {
    if rows != [] { WindowsAddUp(rows[..|rows| - 1], subject, metric, a, b, c); }
  }

  /** In int64 too, where every total wraps around. */
  lemma {:induction false} WrappedWindowsAddUp(rows: seq<Row>, subject: string, metric: string, a: Time, b: Time,
                                               c: Time)
    requires a <= b <= c
    ensures Wrap64(Wrap64(Usage(rows, subject, metric, a, b)) + Wrap64(Usage(rows, subject, metric, b, c)))
         == Wrap64(Usage(rows, subject, metric, a, c))
  {
    hide Wrap64;
    var x, y := Usage(rows, subject, metric, a, b), Usage(rows, subject, metric, b, c);
    WindowsAddUp(rows, subject, metric, a, b, c);
    WrapOnce(x, Wrap64(y));
    WrapOnce(y, x);
  }

  /** Pruning keeps every query whose window starts at or after the cutoff. */
  lemma {:induction false} PruneKeepsQueries(rows: seq<Row>, before: Time, subject: string, metric: string,
                                             start: Time, end: Time)
    requires before <= start
    ensures Usage(Kept(rows, before), subject, metric, start, end) == Usage(rows, subject, metric, start, end)
  {
    if rows != [] {
      var n := |rows| - 1;
      PruneKeepsQueries(rows[..n], before, subject, metric, start, end);
      if rows[n].at >= before {
        UsageMore(Kept(rows[..n], before), rows[n], subject, metric, start, end);
      } else {
        assert Kept(rows[..n], before) + [] == Kept(rows[..n], before);
      }
    }
  }

  /** It drops the rows before the cutoff and no others. */
  lemma {:induction false} KeptRows(rows: seq<Row>, before: Time)
    ensures multiset(Kept(rows, before)) <= multiset(rows)
    ensures forall r :: multiset(Kept(rows, before))[r] == if r.at < before then 0 else multiset(rows)[r]
  {
    if rows != [] {
      var n := |rows| - 1;
      assert rows == rows[..n] + [rows[n]];
      KeptRows(rows[..n], before);
    }
  }

  /** Recording adds the quantity to exactly the windows that contain the event; a
      request id seen before for this subject and metric adds it to none, an event
      without a request id always counts. */
  lemma {:induction false} RecordCounts(l: Log, e: MeterEvent, now: Time, subject: string, metric: string,
                                        start: Time, end: Time)
    ensures Usage(Record(l, e, now).rows, subject, metric, start, end)
         == Usage(l.rows, subject, metric, start, end)
            + (if (e.requestId == "" || e.subject + "|" + e.metric + "|" + e.requestId !in l.seen)
                  && e.subject == subject && e.metric == metric
                  && start <= (if e.occurredAt.Some? then e.occurredAt.value else now) < end
               then e.quantity else 0)
  {
    if !Repeated(l, e) { UsageMore(l.rows, Stored(e, now), subject, metric, start, end); }
  }

  // --------------------------------------------------------------------- runs

  datatype Event = RecordCall(event: MeterEvent, now: Time) | PruneCall(before: Time)

  function Step(l: Log, ev: Event): Log {
    match ev
    case RecordCall(e, now) => Record(l, e, now)
    case PruneCall(before) => Prune(l, before)
  }

  function Run(l: Log, evs: seq<Event>): Log {
    if evs == [] then l else Step(Run(l, evs[..|evs| - 1]), evs[|evs| - 1])
  }

  lemma {:induction false} SeenGrows(l: Log, evs: seq<Event>)
    ensures l.seen <= Run(l, evs).seen
  {
    if evs != [] { SeenGrows(l, evs[..|evs| - 1]); }
  }

  /** Repeating a recorded request changes nothing, whatever was recorded or
      pruned in between. */
  lemma {:induction false} RepeatChangesNothing(l: Log, e: MeterEvent, now: Time, evs: seq<Event>, again: MeterEvent,
                                                later: Time)
    requires e.requestId != "" && again.requestId != "" && KeyOf(again) == KeyOf(e)
    ensures var t := Run(Record(l, e, now), evs);
            Record(t, again, later) == t
  {
    SeenGrows(Record(l, e, now), evs);
  }

  /** Where two different meters share keys, the first event of the one is dropped
      as a repeat of an event of the other. */
  lemma {:induction false} ClashDropsUsage(s: string, m: string, s': string, m': string, quantity: int, now: Time)
    returns (e: MeterEvent, f: MeterEvent)
    requires SharedKeys(Meter(s, m), Meter(s', m')) && (s != s' || m != m')
    ensures e.subject == s && e.metric == m && f.subject == s' && f.metric == m'
    ensures f.quantity == quantity && f.requestId != "" && KeyOf(e) == KeyOf(f)
    ensures var l := Run(EMPTY, [RecordCall(e, now), RecordCall(f, now)]);
            && l == Run(EMPTY, [RecordCall(e, now)])
            && forall start, end :: Usage(l.rows, s', m', start, end) == 0
    ensures forall start, end :: Usage(Run(EMPTY, [RecordCall(f, now)]).rows, s', m', start, end)
                              == if start <= now < end then quantity else 0
  {
    var r, r' := MeetingIds(Meter(s, m), Meter(s', m'));
    e, f := MeterEvent(s, m, 1, None, r), MeterEvent(s', m', quantity, None, r');
    assert KeyOf(e) == KeyOf(f);
    hide KeyOf, Run, Usage;
    OneRecord(e, now);
    OneRecord(f, now);
    RunMore(EMPTY, RecordCall(e, now), RecordCall(f, now));
    SingleUsage(Stored(e, now), s', m');
    SingleUsage(Stored(f, now), s', m');
  }

  lemma {:induction false} RunMore(l: Log, first: Event, second: Event)
    ensures Run(l, [first, second]) == Step(Run(l, [first]), second)
  {
    assert [first, second][..1] == [first];
  }

  lemma {:induction false} OneRecord(e: MeterEvent, now: Time)
    ensures Run(EMPTY, [RecordCall(e, now)]) == Record(EMPTY, e, now)
  {
    assert [RecordCall(e, now)][..0] == [];
  }

  lemma {:induction false} SingleUsage(r: Row, subject: string, metric: string)
    ensures forall start, end :: Usage([r], subject, metric, start, end)
                              == if Counts(r, subject, metric, start, end) then r.quantity else 0
  {
    assert [r][..0] == [];
  }

  function RowKey(r: Row): string {
    RequestKey(r.subject, r.metric, r.requestId)
  }

  /** Every request id has at most one row, and is remembered. */
  ghost predicate OneRowPerRequest(l: Log) {
    && (forall i :: 0 <= i < |l.rows| && l.rows[i].requestId != "" ==> RowKey(l.rows[i]) in l.seen)
    && (forall i, j :: 0 <= i < j < |l.rows| && l.rows[i].requestId != "" && l.rows[j].requestId != "" ==>
          RowKey(l.rows[i]) != RowKey(l.rows[j]))
  }

  lemma {:induction false} KeptSubsequence(rows: seq<Row>, before: Time) returns (at: seq<nat>)
    ensures |at| == |Kept(rows, before)|
    ensures forall k :: 0 <= k < |at| ==> at[k] < |rows| && Kept(rows, before)[k] == rows[at[k]]
    ensures forall j, k :: 0 <= j < k < |at| ==> at[j] < at[k]
  {
    at := [];
    if rows != [] {
      var n := |rows| - 1;
      at := KeptSubsequence(rows[..n], before);
      assert forall i :: 0 <= i < n ==> rows[..n][i] == rows[i];
      if rows[n].at >= before { at := at + [n]; }
    }
  }

  lemma {:induction false} PruneKeepsOneRow(l: Log, before: Time)
    requires OneRowPerRequest(l)
    ensures OneRowPerRequest(Prune(l, before))
  {
    hide RowKey;
    var at := KeptSubsequence(l.rows, before);
    var kept := Kept(l.rows, before);
    forall i, j | 0 <= i < j < |kept| && kept[i].requestId != "" && kept[j].requestId != ""
      ensures RowKey(kept[i]) != RowKey(kept[j])
    {
      assert RowKey(l.rows[at[i]]) != RowKey(l.rows[at[j]]);
    }
  }

  lemma {:induction false} RecordKeepsOneRow(l: Log, e: MeterEvent, now: Time)
    requires OneRowPerRequest(l)
    ensures OneRowPerRequest(Record(l, e, now))
  {
  }

  /** In every run a request id counts at most once. */
  lemma {:induction false} RequestsCountOnce(evs: seq<Event>)
    ensures OneRowPerRequest(Run(EMPTY, evs))
  {
    hide OneRowPerRequest, Record, Prune;
    if evs == [] {
      NoRows();
    } else {
      var l, ev := Run(EMPTY, evs[..|evs| - 1]), evs[|evs| - 1];
      RequestsCountOnce(evs[..|evs| - 1]);
      match ev
      case RecordCall(e, now) => RecordKeepsOneRow(l, e, now);
      case PruneCall(before) => PruneKeepsOneRow(l, before);
    }
  }

  lemma {:induction false} NoRows()
    ensures OneRowPerRequest(EMPTY)
  {
  }
}
