/** The peer-agent event journal (peer_mcp_events.py): an append-only file that is trimmed
    from the front, and the fold that turns it into one row per agent. */
module Journal {
  import opened Options
  import Seqs
  import opened Sorting

  // ---------- the file ----------

  newtype byte = x: int | 0 <= x < 256

  const NEWLINE: byte := 10
  const MAX_JOURNAL_BYTES: nat := 5_000_000
  const KEEP_BYTES: nat := MAX_JOURNAL_BYTES / 2

  /** One serialised event: JSON without raw newlines, then a newline. */
  predicate IsLine(line: seq<byte>) {
    line != [] && line[|line| - 1] == 10 && 10 !in line[..|line| - 1]
  }

  ghost predicate AllLines(lines: seq<seq<byte>>) {
    forall l <- lines :: IsLine(l)
  }

  function Concat(lines: seq<seq<byte>>): seq<byte> {
    if lines == [] then [] else lines[0] + Concat(lines[1..])
  }

  /** What follows the first newline. */
  function SkipLine(data: seq<byte>): seq<byte> {
    if data == [] then [] else if data[0] == NEWLINE then data[1..] else SkipLine(data[1..])
  }

  /** `_trim_journal`. */
  function Trim(data: seq<byte>): seq<byte> {
    if |data| <= MAX_JOURNAL_BYTES then data
    else
      var tail := data[|data| - KEEP_BYTES..];
      if NEWLINE in tail then SkipLine(tail) else tail
  }

  /** The file after appending these lines, one by one, to an empty journal. */
  function Written(lines: seq<seq<byte>>): seq<byte> {
    if lines == [] then []
    else Trim(Written(lines[..|lines| - 1])) + lines[|lines| - 1]
  }

  lemma {:induction false} SkipLineShrinks(data: seq<byte>)
    ensures |SkipLine(data)| <= |data|
  {
    if data != [] && data[0] != NEWLINE {
      SkipLineShrinks(data[1..]);
    }
  }

  /** Skipping a line end skips exactly to what follows it. */
  lemma {:induction false} SkipLineEnd(end: seq<byte>, rest: seq<byte>)
    requires IsLine(end)
    ensures SkipLine(end + rest) == rest
    decreases |end|
  {
    var all := end + rest;
    if |end| == 1 {
      assert all[1..] == rest;
    } else {
      assert end[..|end| - 1][0] == end[0] && end[0] != NEWLINE;
      assert end[1..][..|end| - 2] == end[..|end| - 1][1..];
      SkipLineEnd(end[1..], rest);
      assert all[1..] == end[1..] + rest;
    }
  }

  /** A cut inside the first line skips the rest of that line. */
  lemma CutInside(first: seq<byte>, rest: seq<byte>, m: nat)
    requires IsLine(first) && m < |first|
    ensures NEWLINE in (first + rest)[m..] && SkipLine((first + rest)[m..]) == rest
  {
    hide SkipLine;
    var end := first[m..];
    assert end[..|end| - 1] == first[..|first| - 1][m..];
    assert (first + rest)[m..] == end + rest;
    assert end[|end| - 1] in end + rest;
    SkipLineEnd(end, rest);
  }

  /** Cutting a file of lines anywhere and skipping to the next newline lands on a line
      boundary: the first one inside the part kept. */
  lemma {:induction false} CutLandsOnBoundary(lines: seq<seq<byte>>, m: nat) returns (k: nat)
    requires AllLines(lines) && m <= |Concat(lines)|
    ensures var tail := Concat(lines)[m..];
            k <= |lines| && (if NEWLINE in tail then SkipLine(tail) else tail) == Concat(lines[k..])
    ensures var tail := Concat(lines)[m..];
            tail != [] ==> k > 0 && |Concat(lines[k..])| < |tail| <= |Concat(lines[k - 1..])|
    decreases |lines|
  {
    hide SkipLine;
    hide IsLine;
    k := 0;
    if lines == [] {
      assert Concat(lines)[m..] == [] && lines[0..] == [];
    } else {
      var first, rest := lines[0], Concat(lines[1..]);
      if m < |first| {
        k := 1;
        CutInside(first, rest, m);
        assert lines[0..] == lines;
      } else {
        k := CutLandsOnBoundary(lines[1..], m - |first|);
        assert Concat(lines)[m..] == rest[m - |first|..];
        assert lines[1..][k..] == lines[k + 1..];
        assert k > 0 ==> lines[1..][k - 1..] == lines[k..];
        k := k + 1;
      }
    }
  }

  lemma {:induction false} ConcatSnoc(lines: seq<seq<byte>>, line: seq<byte>)
    ensures Concat(lines + [line]) == Concat(lines) + line
  {
    if lines == [] {
      assert lines + [line] == [line] && [line][1..] == [];
    } else {
      ConcatSnoc(lines[1..], line);
      assert (lines + [line])[1..] == lines[1..] + [line];
    }
  }

  /** One more line at the end of a suffix. */
  lemma ConcatSuffix(lines: seq<seq<byte>>, k: nat)
    requires k < |lines|
    ensures var n := |lines| - 1;
            Concat(lines[k..]) == Concat(lines[..n][k..]) + lines[n]
  {
    hide Concat;
    var n := |lines| - 1;
    assert lines[k..] == lines[..n][k..] + [lines[n]];
    ConcatSnoc(lines[..n][k..], lines[n]);
  }

  lemma SuffixOfSuffix(lines: seq<seq<byte>>, i: nat, j: nat)
    requires i + j <= |lines|
    ensures lines[i..][j..] == lines[i + j..]
  {
  }

  lemma NoLines()
    ensures Concat([]) == []
  {
  }

  /** A trim keeps the lines that fit into less than half the limit, and drops no other. */
  lemma TrimKeepsLines(lines: seq<seq<byte>>) returns (k: nat)
    requires AllLines(lines)
    ensures k <= |lines| && Trim(Concat(lines)) == Concat(lines[k..])
    ensures |Trim(Concat(lines))| <= 5_000_000
    ensures k > 0 <==> |Concat(lines)| > 5_000_000
    ensures k > 0 ==> |Concat(lines[k..])| < 2_500_000 <= |Concat(lines[k - 1..])|
  {
    hide Concat;
    hide SkipLine;
    hide IsLine;
    var data := Concat(lines);
    k := 0;
    assert lines[0..] == lines;
    if |data| > MAX_JOURNAL_BYTES {
      k := CutLandsOnBoundary(lines, |data| - KEEP_BYTES);
      SkipLineShrinks(data[|data| - KEEP_BYTES..]);
    }
  }

  lemma SomeLines(lines: seq<seq<byte>>, i: nat, j: nat)
    requires AllLines(lines) && i <= j <= |lines|
    ensures AllLines(lines[i..j])
  {
    hide IsLine;
  }

  /** A line is only missing before `k` if it and the lines from `k` on fill half the limit. */
  ghost predicate HadToGo(lines: seq<seq<byte>>, k: nat) {
    k <= |lines| && (k > 0 ==> |Concat(lines[k - 1..])| >= 2_500_000)
  }

  /** Trimming a suffix and appending a line gives a suffix again. */
  lemma AppendKeepsSuffix(lines: seq<seq<byte>>, i: nat) returns (k: nat)
    requires lines != [] && AllLines(lines) && HadToGo(lines[..|lines| - 1], i)
    ensures var n := |lines| - 1;
            k <= n && HadToGo(lines, k) && Trim(Concat(lines[..n][i..])) + lines[n] == Concat(lines[k..])
            && |Trim(Concat(lines[..n][i..]))| <= 5_000_000
  {
    hide Trim;
    hide Concat;
    hide AllLines;
    var n := |lines| - 1;
    SomeLines(lines, 0, n);
    assert lines[0..n] == lines[..n] && lines[..n][i..n] == lines[..n][i..];
    SomeLines(lines[..n], i, n);
    var j := TrimKeepsLines(lines[..n][i..]);
    k := i + j;
    SuffixOfSuffix(lines[..n], i, j);
    ConcatSuffix(lines, k);
    if k > 0 {
      if j > 0 { SuffixOfSuffix(lines[..n], i, j - 1); }
      ConcatSuffix(lines, k - 1);
    }
  }

  /** The journal is always the most recent whole lines of everything ever appended: no torn
      line, no gap; its size never exceeds the limit by more than the last line; and a line is
      only missing if it and the lines after it fill half the limit. */
  lemma {:induction false} JournalIsRecentLines(lines: seq<seq<byte>>) returns (k: nat)
    requires AllLines(lines)
    ensures k <= |lines| && Written(lines) == Concat(lines[k..]) && HadToGo(lines, k)
    ensures lines != [] ==> k < |lines| && |Written(lines)| <= 5_000_000 + |lines[|lines| - 1]|
    decreases |lines|
  {
    hide Trim;
    hide AllLines;
    k := 0;
    assert lines[0..] == lines;
    if lines != [] {
      hide HadToGo;
      hide Concat;
      var n := |lines| - 1;
      SomeLines(lines, 0, n);
      var i := JournalIsRecentLines(lines[..n]);
      k := AppendKeepsSuffix(lines, i);
    }
  }

  /** Nothing is dropped while everything fits. */
  lemma {:induction false} SmallJournalKeepsAll(lines: seq<seq<byte>>)
    requires lines != [] ==> |Concat(lines[..|lines| - 1])| <= MAX_JOURNAL_BYTES
    ensures Written(lines) == Concat(lines)
    decreases |lines|
  {
    hide Concat;
    if lines == [] {
      NoLines();
    } else {
      var n := |lines| - 1;
      var before := lines[..n];
      if n > 0 {
        ConcatSuffix(before, 0);
        assert before[..n - 1][0..] == before[..n - 1] && before[0..] == before;
      }
      SmallJournalKeepsAll(before);
      ConcatSuffix(lines, 0);
      assert lines[..n][0..] == before && lines[0..] == lines;
    }
  }

  class JournalFile {
    var data: seq<byte>
    ghost var history: seq<seq<byte>>

    ghost predicate Valid()
      reads this
    {
      AllLines(history) && data == Written(history)
    }

    constructor ()
      ensures Valid() && history == [] && data == []
    {
      data, history := [], [];
    }

    /** `_trim_journal`: scan for the first newline of the kept half. */
    method TrimFile()
      modifies this`data
      ensures data == Trim(old(data))
      ensures |old(data)| <= 5_000_000 ==> data == old(data)
      ensures |old(data)| > 5_000_000 ==>
        var tail := old(data)[|old(data)| - 2_500_000..]; if 10 in tail then data == SkipLine(tail) else data == tail
    {
      if |data| <= MAX_JOURNAL_BYTES {
        return;
      }
      var tail := data[|data| - KEEP_BYTES..];
      var i := 0;
      while i < |tail| && tail[i] != NEWLINE
        invariant i <= |tail| && NEWLINE !in tail[..i]
        invariant SkipLine(tail) == SkipLine(tail[i..])
      {
        assert tail[i..][1..] == tail[i + 1..];
        assert tail[..i + 1] == tail[..i] + [tail[i]];
        i := i + 1;
      }
      if i < |tail| {
        assert tail[i] in tail;
        assert tail[i..][1..] == tail[i + 1..];
        data := tail[i + 1..];
      } else {
        assert tail[..i] == tail;
        data := tail;
      }
    }

    method Append(line: seq<byte>)
      requires Valid() && IsLine(line)
      modifies this
      ensures Valid() && history == old(history) + [line]
      ensures data == Trim(old(data)) + line && |data| <= MAX_JOURNAL_BYTES + |line|
    {
      TrimFile();
      data := data + line;
      assert (history + [line])[..|history|] == history;
      history := history + [line];
      ghost var _ := JournalIsRecentLines(history);
    }
  }

  // ---------- the fold ----------

  /** A parsed event, or a row being merged. `ts` is None when the key is absent; the values
      Python treats as false count as 0. */
  datatype Event = Event(agent: string, ts: Option<real>, fields: map<string, string>)

  function Ts(e: Event): real { if e.ts.Some? then e.ts.value else 0.0 }

  /** One event arriving at the row of its agent. */
  function Merge(current: Option<Event>, e: Event): Event {
    match current
    case None => e
    case Some(c) =>
      if Ts(e) < Ts(c) then c
      else Event(e.agent, if e.ts.Some? then e.ts else c.ts, c.fields + e.fields)
  }

  /** The row of one agent, from its own events alone. */
  function Row(own: seq<Event>): Event
    requires own != []
  {
    var before := own[..|own| - 1];
    Merge(if before == [] then None else Some(Row(before)), own[|own| - 1])
  }

  /** The events of one agent, in order. */
  function Of(events: seq<Event>, agent: string): seq<Event> {
    if events == [] then []
    else
      var n := |events| - 1;
      Of(events[..n], agent) + if events[n].agent == agent then [events[n]] else []
  }

  /** Agents by first appearance: the order of a Python dict. */
  function Agents(events: seq<Event>): seq<string> {
    if events == [] then []
    else
      var n := |events| - 1;
      var before := Agents(events[..n]);
      if events[n].agent in before then before else before + [events[n].agent]
  }

  lemma {:induction false} AgentsAre(events: seq<Event>)
    ensures forall a :: a in Agents(events) <==> Of(events, a) != []
    ensures forall i, j :: 0 <= i < j < |Agents(events)| ==> Agents(events)[i] != Agents(events)[j]
    decreases |events|
  {
    if events != [] {
      AgentsAre(events[..|events| - 1]);
    }
  }

  lemma {:induction false} RowKeepsAgent(own: seq<Event>, agent: string)
    requires own != [] && forall e <- own :: e.agent == agent
    ensures Row(own).agent == agent
    decreases |own|
  {
    if |own| > 1 {
      RowKeepsAgent(own[..|own| - 1], agent);
    }
  }

  lemma {:induction false} OfHasAgent(events: seq<Event>, agent: string)
    ensures forall e <- Of(events, agent) :: e.agent == agent
    decreases |events|
  {
    if events != [] {
      OfHasAgent(events[..|events| - 1], agent);
    }
  }

  /** All rows, in dict order. */
  function RowsOf(events: seq<Event>, agents: seq<string>): seq<Event>
    requires forall a <- agents :: Of(events, a) != []
  {
    if agents == [] then [] else [Row(Of(events, agents[0]))] + RowsOf(events, agents[1..])
  }

  function NewestFirst(e: Event): Key { Key(0, -Ts(e)) }

  function Fold(events: seq<Event>, limit: int): seq<Event> {
    AgentsAre(events);
    var rows := StableSort(RowsOf(events, Agents(events)), NewestFirst);
    rows[..if limit < 0 then 0 else if limit < |rows| then limit else |rows|]
  }

  lemma {:induction false} RowsOfAt(events: seq<Event>, agents: seq<string>, i: nat)
    requires (forall a <- agents :: Of(events, a) != []) && i < |agents|
    ensures i < |RowsOf(events, agents)|
    ensures RowsOf(events, agents)[i] == Row(Of(events, agents[i])) && RowsOf(events, agents)[i].agent == agents[i]
  {
    OfHasAgent(events, agents[i]);
    RowKeepsAgent(Of(events, agents[i]), agents[i]);
    if i > 0 {
      RowsOfAt(events, agents[1..], i - 1);
    }
  }

  lemma {:induction false} RowsOfLength(events: seq<Event>, agents: seq<string>)
    requires forall a <- agents :: Of(events, a) != []
    ensures |RowsOf(events, agents)| == |agents|
  {
    if agents != [] {
      RowsOfLength(events, agents[1..]);
    }
  }

  /** Each row is computed from its agent's own events. */
  lemma EachRowIsOwn(events: seq<Event>, limit: int, row: Event)
    requires row in Fold(events, limit)
    ensures Of(events, row.agent) != [] && row == Row(Of(events, row.agent))
  {
    AgentsAre(events);
    var all := RowsOf(events, Agents(events));
    StableSortSorts(all, NewestFirst);
    var rows := StableSort(all, NewestFirst);
    assert row in rows;
    InMultiset(rows, all, row);
    var i :| 0 <= i < |all| && all[i] == row;
    RowsOfLength(events, Agents(events));
    RowsOfAt(events, Agents(events), i);
  }

  lemma Repeats(rows: seq<Event>, i: nat, j: nat)
    requires i < j < |rows| && rows[i] == rows[j]
    ensures multiset(rows)[rows[i]] >= 2
  {
    assert rows == rows[..j] + [rows[j]] + rows[j + 1..];
    assert rows[..j][i] == rows[i];
    assert rows[i] in rows[..j];
    assert multiset(rows) == multiset(rows[..j]) + multiset{rows[j]} + multiset(rows[j + 1..]);
  }

  ghost predicate DistinctAgents(rows: seq<Event>) {
    forall i, j :: 0 <= i < j < |rows| ==> rows[i].agent != rows[j].agent
  }

  lemma {:induction false} OnceEach(rows: seq<Event>, x: Event)
    requires DistinctAgents(rows)
    ensures multiset(rows)[x] <= 1
  {
    if rows != [] {
      OnceEach(rows[1..], x);
      assert rows == [rows[0]] + rows[1..];
      if x == rows[0] {
        assert x !in rows[1..];
      }
    }
  }

  /** Rows of distinct agents stay distinct under reordering. */
  lemma ReorderKeepsDistinct(rows: seq<Event>, all: seq<Event>)
    requires multiset(rows) == multiset(all) && DistinctAgents(all)
    ensures DistinctAgents(rows)
  {
    forall i, j | 0 <= i < j < |rows| ensures rows[i].agent != rows[j].agent {
      InMultiset(rows, all, rows[i]);
      InMultiset(rows, all, rows[j]);
      var a :| 0 <= a < |all| && all[a] == rows[i];
      var b :| 0 <= b < |all| && all[b] == rows[j];
      OnceEach(all, rows[i]);
      if rows[i] == rows[j] {
        Repeats(rows, i, j);
      }
    }
  }

  /** At most one row per agent, newest first, and the cut keeps the newest. */
  lemma FoldShape(events: seq<Event>, limit: int)
    ensures var rows := Fold(events, limit);
            && DistinctAgents(rows)
            && (forall i, j :: 0 <= i < j < |rows| ==> Ts(rows[i]) >= Ts(rows[j]))
            && |rows| == (if limit < 0 then 0 else if limit < |Agents(events)| then limit else |Agents(events)|)
  {
    AgentsAre(events);
    var all := RowsOf(events, Agents(events));
    StableSortSorts(all, NewestFirst);
    var sorted := StableSort(all, NewestFirst);
    RowsOfLength(events, Agents(events));
    forall a, b | 0 <= a < b < |all| ensures all[a].agent != all[b].agent {
      RowsOfAt(events, Agents(events), a);
      RowsOfAt(events, Agents(events), b);
    }
    ReorderKeepsDistinct(sorted, all);
    forall i, j | 0 <= i < j < |sorted| ensures Ts(sorted[i]) >= Ts(sorted[j]) {
      assert Le(NewestFirst(sorted[i]), NewestFirst(sorted[j]));
    }
  }

  lemma FoldIsPrefix(events: seq<Event>, limit: int)
    ensures forall a <- Agents(events) :: Of(events, a) != []
    ensures Fold(events, limit) <= StableSort(RowsOf(events, Agents(events)), NewestFirst)
  {
    AgentsAre(events);
  }

  /** The first element of a sorted sequence that is kept, against one that is not. */
  lemma PrefixIsSmaller<T>(sorted: seq<T>, kept: seq<T>, key: T -> Key, x: T, y: T)
    requires Sorted(sorted, key) && kept <= sorted && x in kept && y in sorted && y !in kept
    ensures Le(key(x), key(y))
  {
    var i :| 0 <= i < |kept| && kept[i] == x;
    var j :| 0 <= j < |sorted| && sorted[j] == y;
    forall k | 0 <= k < |kept| ensures sorted[k] != y {
      assert sorted[k] == kept[k] && kept[k] in kept;
    }
  }

  /** An agent left out by the cut is no newer than any row kept. */
  lemma CutKeepsNewest(events: seq<Event>, limit: int, agent: string, row: Event)
    requires Of(events, agent) != [] && row in Fold(events, limit)
    requires Row(Of(events, agent)) !in Fold(events, limit)
    ensures Ts(Row(Of(events, agent))) <= Ts(row)
  {
    hide Fold;
    hide RowsOf;
    hide StableSort;
    hide Agents;
    hide Of;
    hide Row;
    hide Sorted;
    AgentsAre(events);
    FoldIsPrefix(events, limit);
    var agents := Agents(events);
    var all := RowsOf(events, agents);
    var mine := Row(Of(events, agent));
    StableSortSorts(all, NewestFirst);
    var sorted := StableSort(all, NewestFirst);
    assert agent in agents;
    var a :| 0 <= a < |agents| && agents[a] == agent;
    RowsOfAt(events, agents, a);
    assert all[a] in all;
    InMultiset(sorted, all, mine);
    PrefixIsSmaller(sorted, Fold(events, limit), NewestFirst, row, mine);
  }

  /** Other agents' events do not matter. */
  lemma RowsAreIndependent(events: seq<Event>, others: seq<Event>, limit: int, more: int, row: Event, twin: Event)
    requires row in Fold(events, limit) && twin in Fold(others, more) && row.agent == twin.agent
    requires Of(events, row.agent) == Of(others, row.agent)
    ensures row == twin
  {
    EachRowIsOwn(events, limit, row);
    EachRowIsOwn(others, more, twin);
  }

  // ---------- which timestamp a row carries ----------

  function Newest(own: seq<Event>): real
    requires own != []
  {
    var last := Ts(own[|own| - 1]);
    if |own| == 1 then last
    else
      var before := Newest(own[..|own| - 1]);
      if last < before then before else last
  }

  ghost predicate SomeUnstamped(own: seq<Event>) { exists e <- own :: e.ts.None? }

  ghost predicate StampsNegative(own: seq<Event>) { forall e <- own :: e.ts.Some? ==> e.ts.value < 0.0 }

  lemma {:induction false} RowTimestamp(own: seq<Event>)
    requires own != []
    ensures var r, m := Ts(Row(own)), Newest(own);
            if !StampsNegative(own) then r == m >= 0.0
            else if own[0].ts.None? then r == m == 0.0
            else r < 0.0 && (if SomeUnstamped(own) then m == 0.0 else r == m)
    decreases |own|
  {
    var n := |own| - 1;
    var last := own[n];
    if n == 0 {
      assert last in own;
    } else {
      var before := own[..n];
      RowTimestamp(before);
      assert own == before + [last];
      assert StampsNegative(own) <==> StampsNegative(before) && (last.ts.Some? ==> last.ts.value < 0.0) by {
        assert forall e :: e in own <==> e in before || e == last;
      }
      assert SomeUnstamped(own) <==> SomeUnstamped(before) || last.ts.None? by {
        assert forall e :: e in own <==> e in before || e == last;
      }
    }
  }

  /** A row carries its agent's greatest timestamp, except exactly when the agent's first
      event is stamped, all its stamps are negative, and some event has none. */
  lemma RowIsNewest(own: seq<Event>)
    requires own != []
    ensures Ts(Row(own)) == Newest(own) <==>
            !(own[0].ts.Some? && StampsNegative(own) && SomeUnstamped(own))
  {
    RowTimestamp(own);
  }

  lemma {:induction false} OfIn(events: seq<Event>, agent: string)
    ensures forall e <- Of(events, agent) :: e in events
    decreases |events|
  {
    if events != [] {
      OfIn(events[..|events| - 1], agent);
    }
  }

  lemma {:induction false} NewestIsMax(own: seq<Event>)
    requires own != []
    ensures forall e <- own :: Ts(e) <= Newest(own)
    ensures exists e <- own :: Ts(e) == Newest(own)
    decreases |own|
  {
    var n := |own| - 1;
    assert own[n] in own;
    if n > 0 {
      NewestIsMax(own[..n]);
      forall e <- own ensures Ts(e) <= Newest(own) {
        assert e in own[..n] || e == own[n];
      }
      var e :| e in own[..n] && Ts(e) == Newest(own[..n]);
      assert e in own;
    }
  }

  /** In particular whenever no stamp is negative: every row's timestamp is the maximum. */
  lemma NonNegativeStampsAreNewest(events: seq<Event>, limit: int, row: Event)
    requires row in Fold(events, limit) && forall e <- events :: Ts(e) >= 0.0
    ensures Of(events, row.agent) != [] && Ts(row) == Newest(Of(events, row.agent))
    ensures forall e <- Of(events, row.agent) :: Ts(e) <= Ts(row)
  {
    EachRowIsOwn(events, limit, row);
    var own := Of(events, row.agent);
    OfIn(events, row.agent);
    RowIsNewest(own);
    assert own[0] in own;
    NewestIsMax(own);
  }

  /** Blank lines, broken JSON and events without an agent are None. */
  function Parsed(lines: seq<Option<Event>>): seq<Event> {
    if lines == [] then []
    else
      var n := |lines| - 1;
      Parsed(lines[..n]) + if lines[n].Some? then [lines[n].value] else []
  }

  /** One more event changes its own agent's row only. */
  lemma ArriveAt(events: seq<Event>, e: Event)
    ensures var after := events + [e];
            && Agents(after) == (if e.agent in Agents(events) then Agents(events) else Agents(events) + [e.agent])
            && (forall a :: Of(after, a) == if a == e.agent then Of(events, a) + [e] else Of(events, a))
            && Of(after, e.agent) != []
            && Row(Of(after, e.agent)) ==
                 Merge(if Of(events, e.agent) == [] then None else Some(Row(Of(events, e.agent))), e)
  {
    var after := events + [e];
    assert after[..|events|] == events;
    assert (Of(events, e.agent) + [e])[..|Of(events, e.agent)|] == Of(events, e.agent);
  }

  /** What the dict `latest` holds: its keys in insertion order, each with its row so far. */
  ghost predicate Collected(events: seq<Event>, order: seq<string>, latest: map<string, Event>) {
    && order == Agents(events) && (forall a :: a in latest <==> a in order)
    && (forall a <- order :: Of(events, a) != [] && latest[a] == Row(Of(events, a)))
  }

  lemma CollectOne(events: seq<Event>, e: Event, order: seq<string>, latest: map<string, Event>)
    requires Collected(events, order, latest)
    ensures var current := if e.agent in latest then Some(latest[e.agent]) else None;
            Collected(events + [e], if e.agent in latest then order else order + [e.agent],
                      latest[e.agent := Merge(current, e)])
  {
    hide Agents;
    hide Of;
    hide Row;
    ArriveAt(events, e);
    AgentsAre(events);
  }

  lemma NothingCollected()
    ensures Collected([], [], map[])
  {
  }

  lemma ParsedSnoc(lines: seq<Option<Event>>, i: nat)
    requires i < |lines|
    ensures Parsed(lines[..i + 1]) ==
              if lines[i].None? then Parsed(lines[..i]) else Parsed(lines[..i]) + [lines[i].value]
  {
    assert lines[..i + 1][..i] == lines[..i];
    assert Parsed(lines[..i]) + [] == Parsed(lines[..i]);
  }

  /** The reading loop of `fold_events`. */
  method Collect(lines: seq<Option<Event>>) returns (order: seq<string>, latest: map<string, Event>)
    ensures Collected(Parsed(lines), order, latest)
  {
    hide Collected;
    order, latest := [], map[];
    assert Collected([], [], map[]) by { NothingCollected(); }
    for i := 0 to |lines|
      invariant Collected(Parsed(lines[..i]), order, latest)
    {
      ghost var before := Parsed(lines[..i]);
      ParsedSnoc(lines, i);
      if lines[i].None? {
        continue;
      }
      var event := lines[i].value;
      CollectOne(before, event, order, latest);
      if event.agent in latest {
        var current := latest[event.agent];
        if Ts(event) < Ts(current) {
          assert latest[event.agent := current] == latest;
          continue;
        }
        var ts := if event.ts.Some? then event.ts else current.ts;
        latest := latest[event.agent := Event(event.agent, ts, current.fields + event.fields)];
      } else {
        order := order + [event.agent];
        latest := latest[event.agent := event];
      }
    }
    assert lines[..|lines|] == lines;
  }

  lemma NoRows(events: seq<Event>)
    ensures RowsOf(events, []) == []
  {
  }

  lemma NextRow(events: seq<Event>, order: seq<string>, latest: map<string, Event>, i: nat)
    requires Collected(events, order, latest) && i < |order|
    ensures order[i] in latest
    ensures forall a <- order[i..] :: Of(events, a) != []
    ensures RowsOf(events, order[i..]) == [latest[order[i]]] + RowsOf(events, order[i + 1..])
  {
    hide Agents;
    hide Of;
    hide Row;
    assert order[i..][0] == order[i] && order[i..][1..] == order[i + 1..];
    assert order[i] in order;
  }

  method FoldEvents(lines: seq<Option<Event>>, limit: int) returns (rows: seq<Event>)
    ensures rows == Fold(Parsed(lines), limit)
  {
    hide Agents;
    hide Of;
    hide Row;
    hide Parsed;
    hide RowsOf;
    hide StableSort;
    var order, latest := Collect(lines);
    ghost var events := Parsed(lines);
    AgentsAre(events);
    rows := [];
    assert order[0..] == order;
    assert order == Agents(events);
    hide Collected;
    for i := 0 to |order|
      invariant forall a <- order[i..] :: Of(events, a) != []
      invariant rows + RowsOf(events, order[i..]) == RowsOf(events, order)
    {
      NextRow(events, order, latest, i);
      Seqs.Assoc(rows, [latest[order[i]]], RowsOf(events, order[i + 1..]));
      rows := rows + [latest[order[i]]];
    }
    assert order[|order|..] == [];
    NoRows(events);
    assert rows == RowsOf(events, order);
    rows := StableSort(rows, NewestFirst);
    rows := rows[..if limit < 0 then 0 else if limit < |rows| then limit else |rows|];
  }
}
