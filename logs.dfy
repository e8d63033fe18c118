/**
 * The read-only queries of models/logs.py over the activity_log table. The
 * table is append-only and its timestamps never decrease along the rowid
 * order, so ORDER BY timestamp DESC is the rowid order reversed (rows that
 * share a timestamp are listed newest row first).
 */
module Logs {

  import opened Wrappers
  import opened Seqs
  import opened Schema
  import opened Integrity

  /** get_logs' default LIMIT, also the LIMIT of the /logs page. */
  const DefaultLimit := 200

  /** ORDER BY timestamp DESC: a row may come before any row that is not newer. */
  predicate NotOlder(a: LogEntry, b: LogEntry)
  {
    a.timestamp >= b.timestamp
  }

  /** Every log row, most recent first. */
  function NewestFirst(log: seq<LogEntry>): (r: seq<LogEntry>)
    ensures |r| == |log|
    ensures forall i :: 0 <= i < |log| ==> r[i] == log[|log| - 1 - i]
    ensures forall x :: x in r <==> x in log
  {
    var r := Reverse(log);
    assert forall x :: x in log ==> x in r by {
      forall x | x in log ensures x in r {
        var i :| 0 <= i < |log| && log[i] == x;
        assert r[|log| - 1 - i] == x;
      }
    }
    r
  }

  /** In a chronological log the reversed order is timestamp descending. */
  lemma NewestFirstSorted(log: seq<LogEntry>, clock: int)
    requires Chronological(log, clock)
    ensures SortedBy(NewestFirst(log), NotOlder)
  {
    var r := NewestFirst(log);
    forall i, j | 0 <= i < j < |r| ensures NotOlder(r[i], r[j]) {
      assert r[i] == log[|log| - 1 - i] && r[j] == log[|log| - 1 - j];
    }
  }

  /** get_logs(limit): the newest rows, at most limit of them; None means every row. */
  function GetLogs(log: seq<LogEntry>, limit: Option<int>): (r: seq<LogEntry>)
    ensures limit.None? ==> r == NewestFirst(log)
    ensures limit.Some? && 0 <= limit.value ==> |r| == if limit.value < |log| then limit.value else |log|
    ensures limit.Some? && limit.value < 0 ==> r == NewestFirst(log)
    ensures r <= NewestFirst(log)
  {
    match limit
    case None => NewestFirst(log)
    case Some(n) => Take(NewestFirst(log), n)
  }

  /** The /logs page: SELECT * FROM activity_log ORDER BY timestamp DESC LIMIT 200. */
  function LogsPage(log: seq<LogEntry>): (r: seq<LogEntry>)
    ensures |r| <= DefaultLimit && r <= NewestFirst(log)
    ensures |log| <= DefaultLimit ==> r == NewestFirst(log)
  {
    GetLogs(log, Some(DefaultLimit))
  }

  /** The limited listing starts with the same rows as any longer one. */
  lemma {:induction false} GetLogsPrefix(log: seq<LogEntry>, n: int, m: int)
    requires 0 <= n <= m
    ensures GetLogs(log, Some(n)) <= GetLogs(log, Some(m))
    ensures GetLogs(log, Some(n)) <= GetLogs(log, None)
  {
    var all := NewestFirst(log);
    if n < |all| {
      assert GetLogs(log, Some(n)) == all[..n];
      if m < |all| {
        assert GetLogs(log, Some(m)) == all[..m];
        assert all[..m][..n] == all[..n];
      }
    }
  }

  /** get_logs_by_table(table): the rows about that table, newest first. */
  function LogsByTable(log: seq<LogEntry>, table: string): (r: seq<LogEntry>)
    ensures forall x :: x in r <==> x in log && x.tableName == table
  {
    Filter(NewestFirst(log), (e: LogEntry) => e.tableName == table)
  }

  /** get_logs_by_action(action): the rows whose action text is that text, newest first. */
  function LogsByAction(log: seq<LogEntry>, action: string): (r: seq<LogEntry>)
    ensures forall x :: x in r <==> x in log && ActionName(x.action) == action
  {
    Filter(NewestFirst(log), (e: LogEntry) => ActionName(e.action) == action)
  }

  /** Both filtered listings keep the timestamp-descending order. */
  lemma FilteredNewestFirst(log: seq<LogEntry>, clock: int, table: string, action: string)
    requires Chronological(log, clock)
    ensures SortedBy(LogsByTable(log, table), NotOlder)
    ensures SortedBy(LogsByAction(log, action), NotOlder)
  {
    NewestFirstSorted(log, clock);
    FilterKeepsSorted(NewestFirst(log), (e: LogEntry) => e.tableName == table, NotOlder);
    FilterKeepsSorted(NewestFirst(log), (e: LogEntry) => ActionName(e.action) == action, NotOlder);
  }

  /** Only the three trigger actions are ever written, so any other text finds nothing. */
  lemma UnknownActionEmpty(log: seq<LogEntry>, action: string)
    requires action != "INSERT" && action != "UPDATE" && action != "DELETE"
    ensures LogsByAction(log, action) == []
  {
    var all := NewestFirst(log);
    forall i | 0 <= i < |all| ensures ActionName(all[i].action) != action {
      match all[i].action
      case Insert =>
      case Update =>
      case Delete =>
    }
    FilterNone(all, (e: LogEntry) => ActionName(e.action) == action);
  }

  /** Every row is listed under exactly one of the three actions. */
  lemma {:induction false} ActionsPartition(s: seq<LogEntry>)
    ensures |Filter(s, (e: LogEntry) => ActionName(e.action) == "INSERT")|
          + |Filter(s, (e: LogEntry) => ActionName(e.action) == "UPDATE")|
          + |Filter(s, (e: LogEntry) => ActionName(e.action) == "DELETE")| == |s|
    decreases |s|
  {
    if s != [] {
      ActionsPartition(s[1..]);
    }
  }

  /** The three action listings together hold as many rows as the whole log. */
  lemma ActionListingsCoverLog(log: seq<LogEntry>)
    ensures |LogsByAction(log, "INSERT")| + |LogsByAction(log, "UPDATE")| + |LogsByAction(log, "DELETE")| == |log|
  {
    ActionsPartition(NewestFirst(log));
  }
}
