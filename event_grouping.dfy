/** The run-length grouping of a session's drowsiness events that both the
    event-history panel and the session-details page perform
    (`combineConsecutiveEvents`, identical in the two components), the
    state-change counter of the session-details page, and the
    drowsy/alert filter the two share.

    Timestamps are integer milliseconds since the epoch; the server sends a
    session's events newest first. */
module EventGrouping {

  /** A stored detection event. The score is carried, never interpreted. */
  datatype Event = Event(id: int, sessionId: int, score: real, isDrowsy: bool, timestamp: int)

  /** A run of consecutive events with the same drowsiness state: the run's
      first event, the seconds between its first and last event, and the
      number of events folded into it. */
  datatype Group = Group(event: Event, duration: int, count: nat)

  /** The filter buttons: all events, drowsy ones only, alert ones only. */
  datatype Filter = All | DrowsyOnly | AlertOnly

  // ---------------------------------------------------------------------
  // Reference definition of the grouping

  /** Every event of `run` has the drowsiness state of the first. */
  ghost predicate Uniform(run: seq<Event>) {
    forall j :: 0 <= j < |run| ==> run[j].isDrowsy == run[0].isDrowsy
  }

  /** `Math.floor((mostRecent - oldest) / 1000)`: whole seconds from `last`
      to `first`, rounded down (Dafny's `/` by a positive divisor rounds
      down, as `Math.floor` does). */
  function Seconds(first: Event, last: Event): int {
    (first.timestamp - last.timestamp) / 1000
  }

  /** The summary pushed for a finished run: the run's first event's fields,
      its span in seconds and its length. */
  function Summarize(run: seq<Event>): (g: Group)
    requires run != []
    ensures g.event == run[0] && g.count == |run|
  {
    Group(run[0], Seconds(run[0], run[|run| - 1]), |run|)
  }

  /** The length of the run that starts the sequence. */
  function LeadingRun(events: seq<Event>): (n: nat)
    requires events != []
    ensures 1 <= n <= |events|
    decreases |events|
  {
    if |events| >= 2 && events[0].isDrowsy == events[1].isDrowsy
    then 1 + LeadingRun(events[1..])
    else 1
  }

  /** The leading run shares the first event's state and ends at the first
      state change. */
  lemma {:induction false} LeadingRunMaximal(events: seq<Event>)
    requires events != []
    ensures var n := LeadingRun(events);
      && (forall j :: 0 <= j < n ==> events[j].isDrowsy == events[0].isDrowsy)
      && (n < |events| ==> events[n].isDrowsy != events[0].isDrowsy)
    decreases |events|
  {
    if |events| >= 2 && events[0].isDrowsy == events[1].isDrowsy {
      var tail := events[1..];
      LeadingRunMaximal(tail);
      var m := LeadingRun(tail);
      assert forall j :: 1 <= j < m + 1 ==> events[j] == tail[j - 1];
      assert m < |tail| ==> events[m + 1] == tail[m];
    }
  }

  /** The maximal runs of `events`, summarized, in order. */
  function Runs(events: seq<Event>): seq<Group>
    decreases |events|
  {
    if events == [] then []
    else
      var n := LeadingRun(events);
      [Summarize(events[..n])] + Runs(events[n..])
  }

  // ---------------------------------------------------------------------
  // The loop of `combineConsecutiveEvents`

  /** `combineConsecutiveEvents`: collects the current run in
      `currentGroup` and pushes its summary whenever the state changes
      between neighbours, then pushes the last run. */
  method CombineConsecutiveEvents(events: seq<Event>) returns (combined: seq<Group>)
    ensures combined == Runs(events)
  {
    if |events| == 0 {
      return [];
    }
    combined := [];
    var currentGroup := [events[0]];
    ghost var start := 0;
    assert events[0..] == events;
    for i := 1 to |events|
      invariant 0 <= start < i
      invariant currentGroup == events[start..i]
      invariant Uniform(currentGroup)
      invariant combined + Runs(events[start..]) == Runs(events)
    {
      var prevEvent := events[i - 1];
      var currentEvent := events[i];
      if prevEvent.isDrowsy == currentEvent.isDrowsy {
        assert events[start..i + 1] == currentGroup + [currentEvent];
        UniformSnoc(currentGroup, currentEvent);
        currentGroup := currentGroup + [currentEvent];
      } else {
        ContinueAfterRun(events, start, i, combined);
        combined := combined + [Summarize(currentGroup)];
        currentGroup := [currentEvent];
        start := i;
      }
    }
    ContinueAfterRun(events, start, |events|, combined);
    assert events[|events|..] == [];
    combined := combined + [Summarize(currentGroup)];
  }

  /** A uniform run grows by an event in the state of its last one. */
  lemma {:induction false} UniformSnoc(run: seq<Event>, e: Event)
    requires run != [] && Uniform(run)
    requires run[|run| - 1].isDrowsy == e.isDrowsy
    ensures Uniform(run + [e])
  {
    var r := run + [e];
    assert forall j :: 0 <= j < |run| ==> r[j] == run[j];
  }

  /** Pushing the closed run keeps the loop's invariant. */
  lemma {:induction false} ContinueAfterRun(events: seq<Event>, start: nat, i: nat, combined: seq<Group>)
    requires start < i <= |events|
    requires Uniform(events[start..i])
    requires i < |events| ==> events[i - 1].isDrowsy != events[i].isDrowsy
    requires combined + Runs(events[start..]) == Runs(events)
    ensures (combined + [Summarize(events[start..i])]) + Runs(events[i..]) == Runs(events)
  {
    CloseRun(events, start, i);
  }

  /** A run `events[start..i]` that ends at a state change (or at the end)
      is the first group of the suffix from `start`. */
  lemma {:induction false} CloseRun(events: seq<Event>, start: nat, i: nat)
    requires start < i <= |events|
    requires Uniform(events[start..i])
    requires i < |events| ==> events[i - 1].isDrowsy != events[i].isDrowsy
    ensures Runs(events[start..]) == [Summarize(events[start..i])] + Runs(events[i..])
  {
    var suffix := events[start..];
    var m := i - start;
    assert forall j :: 0 <= j < m ==> suffix[j].isDrowsy == suffix[0].isDrowsy by {
      assert forall j :: 0 <= j < m ==> suffix[j] == events[start..i][j];
    }
    assert m < |suffix| ==> suffix[m].isDrowsy != suffix[0].isDrowsy by {
      if m < |suffix| {
        assert suffix[m] == events[i] && suffix[m - 1] == events[i - 1];
      }
    }
    LeadingRunMaximal(suffix);
    assert LeadingRun(suffix) == m;
    assert suffix[..m] == events[start..i];
    assert suffix[m..] == events[i..];
  }

  /** A non-empty uniform sequence is a single run. */
  lemma RunsOfUniform(run: seq<Event>)
    requires run != [] && Uniform(run)
    ensures Runs(run) == [Summarize(run)]
  {
    var n := LeadingRun(run);
    LeadingRunMaximal(run);
    assert n == |run|;
    assert run[..n] == run;
    assert run[n..] == [];
  }

  // ---------------------------------------------------------------------
  // What the grouping promises

  /** The total of the groups' counts. */
  function TotalCount(groups: seq<Group>): nat {
    if groups == [] then 0 else groups[0].count + TotalCount(groups[1..])
  }

  /** The drowsiness state of each event, in order. */
  function States(events: seq<Event>): (r: seq<bool>)
    ensures |r| == |events|
    ensures forall j :: 0 <= j < |events| ==> r[j] == events[j].isDrowsy
  {
    seq(|events|, j requires 0 <= j < |events| => events[j].isDrowsy)
  }

  /** The groups expanded back: each group's state repeated `count` times. */
  function Expand(groups: seq<Group>): seq<bool> {
    if groups == [] then []
    else seq(groups[0].count, _ => groups[0].event.isDrowsy) + Expand(groups[1..])
  }

  /** Empty input gives empty output, and only empty input does. */
  lemma RunsEmpty(events: seq<Event>)
    ensures Runs(events) == [] <==> events == []
  {
  }

  /** Grouping conserves events: the counts add up to the number of
      events, and expanding every group by its count gives back the input's
      sequence of states. */
  lemma RunsConserve(events: seq<Event>)
    ensures TotalCount(Runs(events)) == |events|
    ensures Expand(Runs(events)) == States(events)
  {
    RunsCount(events);
    RunsExpand(events);
  }

  /** The counts of the groups add up to the number of events. */
  lemma {:induction false} RunsCount(events: seq<Event>)
    ensures TotalCount(Runs(events)) == |events|
    decreases |events|
  {
    if events != [] {
      var n := LeadingRun(events);
      RunsCount(events[n..]);
      assert Runs(events)[1..] == Runs(events[n..]);
    }
  }

  /** Expanding the groups gives back the events' states. */
  lemma {:induction false} RunsExpand(events: seq<Event>)
    ensures Expand(Runs(events)) == States(events)
    decreases |events|
  {
    if events != [] {
      var n := LeadingRun(events);
      var groups := Runs(events);
      LeadingRunMaximal(events);
      RunsExpand(events[n..]);
      assert groups[0] == Summarize(events[..n]);
      assert groups[1..] == Runs(events[n..]);
      ExpandHead(events, n, groups);
    }
  }

  /** A first group that stands for the leading `n` events, followed by
      groups that expand to the states of the rest, expands to the states of
      all events. */
  lemma {:induction false} ExpandHead(events: seq<Event>, n: nat, groups: seq<Group>)
    requires 1 <= n <= |events| && groups != []
    requires groups[0].count == n && groups[0].event == events[0]
    requires forall j :: 0 <= j < n ==> events[j].isDrowsy == events[0].isDrowsy
    requires Expand(groups[1..]) == States(events[n..])
    ensures Expand(groups) == States(events)
  {
    var e := Expand(groups);
    assert |e| == |events|;
    forall j | 0 <= j < |events|
      ensures e[j] == States(events)[j]
    {
      if j >= n {
        assert e[j] == Expand(groups[1..])[j - n];
        assert events[n..][j - n] == events[j];
      }
    }
  }

  /** The states of a concatenation. */
  lemma StatesAppend(a: seq<Event>, b: seq<Event>)
    ensures States(a + b) == States(a) + States(b)
  {
  }

  /** A uniform run's states are its first state repeated. */
  lemma StatesUniform(run: seq<Event>)
    requires run != [] && forall j :: 0 <= j < |run| ==> run[j].isDrowsy == run[0].isDrowsy
    ensures States(run) == seq(|run|, _ => run[0].isDrowsy)
  {
  }

  /** The runs are maximal: neighbouring groups differ in state. */
  lemma {:induction false} RunsMaximal(events: seq<Event>)
    ensures forall k :: 0 < k < |Runs(events)| ==>
      Runs(events)[k - 1].event.isDrowsy != Runs(events)[k].event.isDrowsy
    decreases |events|
  {
    if events != [] {
      var n := LeadingRun(events);
      var rest := events[n..];
      RunsMaximal(rest);
      if rest != [] {
        LeadingRunMaximal(events);
        assert Runs(rest)[0].event == rest[0];
      }
      assert Runs(events)[1..] == Runs(rest);
    }
  }

  /** The number of events in the first `k` groups. */
  function Offset(groups: seq<Group>, k: nat): nat
    requires k <= |groups|
  {
    if k == 0 then 0 else Offset(groups, k - 1) + groups[k - 1].count
  }

  /** Group `g` describes the `g.count` events from offset `o`: it carries
      the first of them as template, counts at least one event, all of them
      share its state, and its duration is the span from its first to its
      last event in whole seconds, rounded down. */
  ghost predicate Describes(events: seq<Event>, o: nat, g: Group) {
    && 1 <= g.count && o + g.count <= |events|
    && g.event == events[o]
    && g.duration == Seconds(events[o], events[o + g.count - 1])
    && forall j :: o <= j < o + g.count ==> events[j].isDrowsy == g.event.isDrowsy
  }

  /** Group `k` describes the events from `Offset(k)` on. */
  lemma {:induction false} RunsTemplate(events: seq<Event>, k: nat)
    requires k < |Runs(events)|
    ensures Describes(events, Offset(Runs(events), k), Runs(events)[k])
    decreases |events|, 1
  {
    if k == 0 {
      FirstRunTemplate(events);
    } else {
      LaterRunTemplate(events, k);
    }
  }

  /** The first group describes the leading run. */
  lemma {:induction false} FirstRunTemplate(events: seq<Event>)
    requires 0 < |Runs(events)|
    ensures Describes(events, 0, Runs(events)[0])
  {
    var n := LeadingRun(events);
    assert Runs(events)[0] == Summarize(events[..n]);
    LeadingRunMaximal(events);
    TemplateHead(events, n, Runs(events)[0]);
  }

  /** A later group describes its run: the offsets in the rest are shifted
      by the length of the leading run. */
  lemma {:induction false} LaterRunTemplate(events: seq<Event>, k: nat)
    requires 0 < k < |Runs(events)|
    ensures Describes(events, Offset(Runs(events), k), Runs(events)[k])
    decreases |events|, 0
  {
    var n := LeadingRun(events);
    var rest := events[n..];
    var groups := Runs(events);
    assert groups[1..] == Runs(rest);
    RunsTemplate(rest, k - 1);
    OffsetShift(groups, k);
    TemplateShift(events, n, Offset(Runs(rest), k - 1), Runs(rest)[k - 1]);
  }

  /** The summary of the leading run describes the events from 0 on. */
  lemma {:induction false} TemplateHead(events: seq<Event>, n: nat, g: Group)
    requires 1 <= n <= |events| && g == Summarize(events[..n])
    requires forall j :: 0 <= j < n ==> events[j].isDrowsy == events[0].isDrowsy
    ensures 1 <= g.count && g.count <= |events| && g.event == events[0]
    ensures g.duration == Seconds(events[0], events[g.count - 1])
    ensures forall j :: 0 <= j < g.count ==> events[j].isDrowsy == g.event.isDrowsy
  {
    assert events[..n][n - 1] == events[n - 1];
  }

  /** A run found at offset `o` of `events[n..]` is found at `n + o` of
      `events`. */
  lemma {:induction false} TemplateShift(events: seq<Event>, n: nat, o: nat, g: Group)
    requires n <= |events|
    requires 1 <= g.count && o + g.count <= |events| - n
    requires g.event == events[n..][o]
    requires g.duration == Seconds(events[n..][o], events[n..][o + g.count - 1])
    requires forall j :: o <= j < o + g.count ==> events[n..][j].isDrowsy == g.event.isDrowsy
    ensures g.event == events[n + o]
    ensures g.duration == Seconds(events[n + o], events[n + o + g.count - 1])
    ensures forall j :: n + o <= j < n + o + g.count ==> events[j].isDrowsy == g.event.isDrowsy
  {
    forall j | n + o <= j < n + o + g.count
      ensures events[j].isDrowsy == g.event.isDrowsy
    {
      assert events[j] == events[n..][j - n];
    }
  }

  /** Dropping the first group shifts every offset by its count. */
  lemma {:induction false} OffsetShift(groups: seq<Group>, k: nat)
    requires 0 < k <= |groups|
    ensures Offset(groups, k) == groups[0].count + Offset(groups[1..], k - 1)
  {
    if k > 1 {
      OffsetShift(groups, k - 1);
    }
  }

  /** The events arrive newest first. */
  ghost predicate NewestFirst(events: seq<Event>) {
    forall i, j :: 0 <= i < j < |events| ==> events[i].timestamp >= events[j].timestamp
  }

  /** For newest-first input no group has a negative duration. */
  lemma RunsDurationNonNegative(events: seq<Event>, k: nat)
    requires NewestFirst(events)
    requires k < |Runs(events)|
    ensures Runs(events)[k].duration >= 0
  {
    RunsTemplate(events, k);
  }

  /** A single event is one group with count 1 and duration 0. */
  lemma RunsSingle(e: Event)
    ensures Runs([e]) == [Group(e, 0, 1)]
  {
    RunsOfUniform([e]);
  }

  /** `n` events in one state make exactly one group of count `n`. */
  lemma RunsAllSame(events: seq<Event>)
    requires events != [] && Uniform(events)
    ensures |Runs(events)| == 1 && Runs(events)[0].count == |events|
    ensures Runs(events)[0].event == events[0]
  {
    RunsOfUniform(events);
  }

  /** Regrouping the groups' templates changes nothing but the counts: the
      templates already alternate, so each makes a group of its own. */
  lemma {:induction false} RunsOfTemplates(groups: seq<Group>)
    requires forall k :: 0 < k < |groups| ==> groups[k - 1].event.isDrowsy != groups[k].event.isDrowsy
    ensures |Runs(Templates(groups))| == |groups|
    ensures forall k :: 0 <= k < |groups| ==>
      Runs(Templates(groups))[k] == Group(groups[k].event, 0, 1)
    decreases |groups|
  {
    if groups != [] {
      var t := Templates(groups);
      assert LeadingRun(t) == 1;
      assert t[1..] == Templates(groups[1..]);
      RunsOfTemplates(groups[1..]);
    }
  }

  /** The first event of each group. */
  function Templates(groups: seq<Group>): (r: seq<Event>)
    ensures |r| == |groups|
    ensures forall k :: 0 <= k < |groups| ==> r[k] == groups[k].event
  {
    seq(|groups|, k requires 0 <= k < |groups| => groups[k].event)
  }

  /** Regrouping is idempotent on the shape: grouping the templates of a
      grouping keeps every template and its order. */
  lemma RunsIdempotent(events: seq<Event>)
    ensures Templates(Runs(Templates(Runs(events)))) == Templates(Runs(events))
  {
    RunsMaximal(events);
    RunsOfTemplates(Runs(events));
  }

  /** The example from the design notes: two alert events one second apart
      and then a drowsy one make two groups. */
  lemma RunsExample(a: Event, b: Event, c: Event)
    requires !a.isDrowsy && !b.isDrowsy && c.isDrowsy
    requires a.timestamp == 1000 && b.timestamp == 0
    ensures Runs([a, b, c]) == [Group(a, 1, 2), Group(c, 0, 1)]
  {
    assert LeadingRun([a, b, c]) == 2;
    assert [a, b, c][..2] == [a, b];
    assert [a, b, c][2..] == [c];
    RunsSingle(c);
  }

  // ---------------------------------------------------------------------
  // State changes (session-details page)

  /** The number of neighbouring pairs whose states differ. */
  function StateChanges(events: seq<Event>): nat
    decreases |events|
  {
    if |events| < 2 then 0
    else
      StateChanges(events[..|events| - 1])
      + (if events[|events| - 2].isDrowsy != events[|events| - 1].isDrowsy then 1 else 0)
  }

  /** `countStateChanges`: 0 for fewer than two events, otherwise one for
      every neighbouring pair whose states differ. */
  method CountStateChanges(events: seq<Event>) returns (changes: nat)
    ensures changes == StateChanges(events)
    ensures |events| < 2 ==> changes == 0
  {
    if |events| < 2 {
      return 0;
    }
    changes := 0;
    for i := 1 to |events|
      invariant changes == StateChanges(events[..i])
    {
      assert events[..i + 1][..i] == events[..i];
      if events[i - 1].isDrowsy != events[i].isDrowsy {
        changes := changes + 1;
      }
    }
    assert events[..|events|] == events;
  }

  /** State changes split at a seam, plus one if the seam is a change. */
  lemma {:induction false} StateChangesAppend(a: seq<Event>, b: seq<Event>)
    requires a != [] && b != []
    ensures StateChanges(a + b) == StateChanges(a) + StateChanges(b)
      + (if a[|a| - 1].isDrowsy != b[0].isDrowsy then 1 else 0)
    decreases |b|
  {
    var ab := a + b;
    assert ab[..|ab| - 1] == a + b[..|b| - 1];
    if |b| == 1 {
      assert ab[..|ab| - 1] == a;
    } else {
      StateChangesAppend(a, b[..|b| - 1]);
    }
  }

  /** A uniform sequence has no state change. */
  lemma {:induction false} StateChangesUniform(run: seq<Event>)
    requires Uniform(run)
    ensures StateChanges(run) == 0
    decreases |run|
  {
    if |run| >= 2 {
      StateChangesUniform(run[..|run| - 1]);
    }
  }

  /** Every state change starts a new group: for non-empty input the number
      of changes is one less than the number of groups. */
  lemma {:induction false} StateChangesCountsRuns(events: seq<Event>)
    requires events != []
    ensures StateChanges(events) == |Runs(events)| - 1
    decreases |events|
  {
    var n := LeadingRun(events);
    var run := events[..n];
    var rest := events[n..];
    LeadingRunMaximal(events);
    StateChangesUniform(run);
    if rest != [] {
      StateChangesCountsRuns(rest);
      assert events == run + rest;
      StateChangesAppend(run, rest);
    } else {
      assert events == run;
    }
  }

  // ---------------------------------------------------------------------
  // The filter

  /** Whether filter `f` keeps event `e`. */
  predicate Keeps(f: Filter, e: Event) {
    match f
    case All => true
    case DrowsyOnly => e.isDrowsy
    case AlertOnly => !e.isDrowsy
  }

  /** `events.filter(...)` for the chosen filter button. */
  function Filtered(events: seq<Event>, f: Filter): (r: seq<Event>)
    ensures |r| <= |events|
    ensures forall j :: 0 <= j < |r| ==> Keeps(f, r[j]) && r[j] in events
    ensures forall e :: e in events && Keeps(f, e) ==> e in r
    decreases |events|
  {
    if events == [] then []
    else
      var rest := Filtered(events[1..], f);
      assert forall e :: e in events[1..] ==> e in events;
      if Keeps(f, events[0]) then [events[0]] + rest else rest
  }

  /** Filtering distributes over concatenation, so the order of the kept
      events is that of the input. */
  lemma {:induction false} FilteredAppend(a: seq<Event>, b: seq<Event>, f: Filter)
    ensures Filtered(a + b, f) == Filtered(a, f) + Filtered(b, f)
    decreases |a|
  {
    if a == [] {
      assert a + b == b;
    } else {
      assert (a + b)[1..] == a[1..] + b;
      FilteredAppend(a[1..], b, f);
    }
  }

  /** The 'all' filter keeps everything. */
  lemma {:induction false} FilteredAll(events: seq<Event>)
    ensures Filtered(events, All) == events
    decreases |events|
  {
    if events != [] {
      FilteredAll(events[1..]);
    }
  }

  /** Every event is drowsy or alert, so the two filters split the events
      between them. */
  lemma {:induction false} FilteredSplit(events: seq<Event>)
    ensures |Filtered(events, DrowsyOnly)| + |Filtered(events, AlertOnly)| == |events|
    decreases |events|
  {
    if events != [] {
      FilteredSplit(events[1..]);
    }
  }

  /** The 'drowsy' and 'alert' filters leave one state only, so grouping
      their result gives at most one group. */
  lemma RunsAfterStateFilter(events: seq<Event>, f: Filter)
    requires f != All
    ensures |Runs(Filtered(events, f))| <= 1
  {
    var r := Filtered(events, f);
    if r != [] {
      assert Uniform(r);
      RunsOfUniform(r);
    }
  }
}
