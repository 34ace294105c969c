/** The fold of the event journal in terms of the events themselves (peer_mcp_events.py, lines 70
    to 93): which events make up a row, what each later one changes, and in which order agents
    come. */
module JournalRows {
  import opened Options
  import Seqs
  import opened Journal

  // ---------- whose events ----------

  lemma OneOf(e: Event, agent: string)
    ensures Of([e], agent) == if e.agent == agent then [e] else []
  {
    assert [e][..0] == [];
  }

  /** An agent's events are its own ones, in order, one by one. */
  lemma {:induction false} OfConcat(a: seq<Event>, b: seq<Event>, agent: string)
    ensures Of(a + b, agent) == Of(a, agent) + Of(b, agent)
    decreases |b|
  {
    if b == [] {
      assert a + b == a;
    } else {
      var n := |b| - 1;
      OfConcat(a, b[..n], agent);
      assert (a + b)[..|a + b| - 1] == a + b[..n] && (a + b)[|a + b| - 1] == b[n];
      Seqs.Assoc(Of(a, agent), Of(b[..n], agent), if b[n].agent == agent then [b[n]] else []);
    }
  }

  lemma {:induction false} SomeEventOf(events: seq<Event>, agent: string) returns (p: nat)
    requires Of(events, agent) != []
    ensures p < |events| && events[p].agent == agent
    decreases |events|
  {
    var n := |events| - 1;
    if events[n].agent == agent {
      p := n;
    } else {
      p := SomeEventOf(events[..n], agent);
    }
  }

  lemma {:induction false} EventsAgent(events: seq<Event>, q: nat)
    requires q < |events|
    ensures events[q].agent in Agents(events)
    decreases |events|
  {
    if q < |events| - 1 { EventsAgent(events[..|events| - 1], q); }
  }

  /** Agents come in the order of their first events. */
  lemma {:induction false} AgentsInOrder(events: seq<Event>, i: nat, j: nat) returns (p: nat)
    requires i < j < |Agents(events)|
    ensures p < |events| && events[p].agent == Agents(events)[i]
    ensures forall q :: 0 <= q <= p ==> events[q].agent != Agents(events)[j]
    decreases |events|
  {
    var n := |events| - 1;
    var before := Agents(events[..n]);
    if j < |before| {
      p := AgentsInOrder(events[..n], i, j);
    } else {
      AgentsAre(events[..n]);
      assert before[i] in before;
      p := SomeEventOf(events[..n], before[i]);
      forall q | 0 <= q <= p ensures events[q].agent != Agents(events)[j] {
        EventsAgent(events[..n], q);
      }
    }
  }

  // ---------- what an event changes ----------

  /** A missing timestamp counts as 0. */
  function Stamp(ts: Option<real>): real {
    match ts
    case None => 0.0
    case Some(t) => t
  }

  /** An agent's first event is its row. A later one changes nothing if it is stamped earlier than
      the row; otherwise its fields and its timestamp, where it has them, replace the row's, and
      everything else stays. */
  lemma RowGrows(own: seq<Event>, e: Event)
    ensures Row([e]) == e
    ensures own != [] ==>
              var r, r' := Row(own), Row(own + [e]);
              if Stamp(e.ts) < Stamp(r.ts) then r' == r
              else
                && r'.agent == e.agent && r'.ts == (if e.ts.Some? then e.ts else r.ts)
                && r'.fields.Keys == r.fields.Keys + e.fields.Keys
                && (forall k <- e.fields :: r'.fields[k] == e.fields[k])
                && (forall k <- r.fields :: k !in e.fields ==> r'.fields[k] == r.fields[k])
  {
    assert (own + [e])[..|own|] == own;
    assert [e][..0] == [];
  }

  ghost predicate InTimeOrder(own: seq<Event>) {
    && (forall e <- own :: Stamp(e.ts) >= 0.0)
    && forall i, j :: 0 <= i < j < |own| ==> Stamp(own[i].ts) <= Stamp(own[j].ts)
  }

  lemma {:induction false} RowStamp(own: seq<Event>)
    requires own != [] && InTimeOrder(own)
    ensures Stamp(Row(own).ts) <= Stamp(own[|own| - 1].ts)
    decreases |own|
  {
    hide Row;
    var n := |own| - 1;
    var before, last := own[..n], own[n];
    assert own == before + [last] && last in own;
    RowGrows(before, last);
    if n == 0 {
      assert own == [last];
    } else {
      RowStamp(before);
      assert before[n - 1] == own[n - 1];
    }
  }

  lemma OrderedPrefix(own: seq<Event>)
    requires own != [] && InTimeOrder(own)
    ensures InTimeOrder(own[..|own| - 1])
  {
  }

  /** One more event in time: its fields win. */
  lemma FieldGrows(own: seq<Event>, k: string)
    requires |own| > 1 && InTimeOrder(own)
    ensures var n := |own| - 1;
            var r, r' := Row(own[..n]).fields, Row(own).fields;
            && (k in r' <==> k in r || k in own[n].fields)
            && (k in r' ==> r'[k] == if k in own[n].fields then own[n].fields[k] else r[k])
  {
    hide Row;
    var n := |own| - 1;
    assert own == own[..n] + [own[n]];
    RowGrows(own[..n], own[n]);
    OrderedPrefix(own);
    RowStamp(own[..n]);
    assert own[..n][n - 1] == own[n - 1];
  }

  /** The i-th event is the last one that has the field. */
  ghost predicate LastWith(own: seq<Event>, k: string, i: int) {
    0 <= i < |own| && k in own[i].fields && forall j :: i < j < |own| ==> k !in own[j].fields
  }

  /** For events stamped in order a row holds, for every field any of them has, the value of the
      last one that has it. */
  lemma {:induction false} LatestFieldWins(own: seq<Event>, k: string)
    requires own != [] && InTimeOrder(own)
    ensures k in Row(own).fields <==> exists e <- own :: k in e.fields
    ensures forall i | LastWith(own, k, i) :: k in Row(own).fields && Row(own).fields[k] == own[i].fields[k]
    decreases |own|
  {
    hide Row;
    hide InTimeOrder;
    var n := |own| - 1;
    var before, last := own[..n], own[n];
    assert own == before + [last] && last in own;
    if n == 0 {
      RowGrows([], last);
      assert own == [last];
    } else {
      OrderedPrefix(own);
      FieldGrows(own, k);
      LatestFieldWins(before, k);
      assert forall e :: e in own <==> e in before || e == last;
      forall i | LastWith(own, k, i) ensures i == n || (k !in last.fields && LastWith(before, k, i)) {
        if i < n { assert k !in own[n].fields && forall j :: i < j < n ==> before[j] == own[j]; }
      }
    }
  }
}
