/** The session details page (`SessionDetailsPage`): which list is shown
    for the chosen filter, and the statistics card, whose state-change
    count is taken over all events whatever the filter. */
module SessionDetails {
  import opened EventGrouping
  import EventHistory

  /** `displayEvents`: grouped runs under 'all', the plain filtered events
      otherwise. */
  datatype Display = Grouped(groups: seq<Group>) | Plain(events: seq<Event>)

  /** The statistics card. */
  datatype PageStats = PageStats(total: nat, drowsy: nat, alert: nat, avgScore: real, stateChanges: nat)

  /** The shown list: only 'all' is grouped, and then the groups account
      for every event in order; under 'drowsy' or 'alert' it is exactly
      the filtered events, ungrouped. */
  function DisplayEvents(events: seq<Event>, filter: Filter): (d: Display)
    ensures d.Grouped? <==> filter == All
    ensures d.Grouped? ==>
      d.groups == Runs(events) && TotalCount(d.groups) == |events| && Expand(d.groups) == States(events)
    ensures d.Plain? ==>
      d.events == Filtered(events, filter)
      && (forall j :: 0 <= j < |d.events| ==> d.events[j].isDrowsy == (filter == DrowsyOnly))
  {
    if filter == All then
      FilteredAll(events);
      RunsConserve(events);
      Grouped(Runs(Filtered(events, filter)))
    else
      Plain(Filtered(events, filter))
  }

  /** `stats`: the counts as in the event history panel, plus the number of
      state changes among all loaded events, which is one less than the
      number of runs when there are events. */
  function ComputePageStats(events: seq<Event>): (s: PageStats)
    ensures s.total == |events| && s.drowsy + s.alert == s.total
    ensures s.drowsy == |Filtered(events, DrowsyOnly)|
    ensures s.stateChanges == StateChanges(events)
    ensures events == [] ==> s.stateChanges == 0
    ensures events != [] ==> s.stateChanges == |Runs(events)| - 1
  {
    var base := EventHistory.ComputeStats(events);
    if events != [] then
      StateChangesCountsRuns(events);
      PageStats(base.total, base.drowsy, base.alert, base.avgScore, StateChanges(events))
    else
      PageStats(base.total, base.drowsy, base.alert, base.avgScore, StateChanges(events))
  }

  /** The shown list agrees with the card: under one state the list has
      as many entries as the card counts for that state, and under 'all'
      the groups' counts add up to the total. */
  lemma DisplayAgreesWithStats(events: seq<Event>)
    ensures |DisplayEvents(events, DrowsyOnly).events| == ComputePageStats(events).drowsy
    ensures |DisplayEvents(events, AlertOnly).events| == ComputePageStats(events).alert
    ensures TotalCount(DisplayEvents(events, All).groups) == ComputePageStats(events).total
  {
  }
}
