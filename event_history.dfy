/** The event history panel of a session (`EventHistory`): the loaded
    events, the state filter, grouping of consecutive events, "load more"
    paging of the groups three at a time, and the summary counts.

    The events API is an input: `LoadResult` says what the request
    produced. */
module EventHistory {
  import opened Wrappers
  import opened EventGrouping

  /** `EVENTS_PER_PAGE`. */
  const EventsPerPage: nat := 3
  const LoadFailedMessage: string := "Не удалось загрузить события"

  /** The outcome of `eventsAPI.getEvents`: a reply that is an array, a
      reply that is not, or a rejection (with its message when it is an
      `Error`). */
  datatype LoadResult = Loaded(data: seq<Event>) | NotAnArray | LoadFailed(message: Option<string>)

  /** The summary shown above the list. */
  datatype Stats = Stats(total: nat, drowsy: nat, alert: nat, avgScore: real)

  function Min(a: int, b: int): int {
    if a <= b then a else b
  }

  /** `combinedEvents.slice(0, visibleCount)`: the first `visibleCount`
      groups, or all of them when there are fewer. */
  function Visible(groups: seq<Group>, visibleCount: nat): (r: seq<Group>)
    ensures |r| == Min(visibleCount, |groups|)
    ensures r == groups[..|r|]
  {
    if visibleCount <= |groups| then groups[..visibleCount] else groups
  }

  /** The "load more" button is shown while some group is hidden. */
  predicate ShowLoadMore(groups: seq<Group>, visibleCount: nat) {
    visibleCount < |groups|
  }

  /** The number on the "load more" button. */
  function LoadMoreLabel(groups: seq<Group>, visibleCount: nat): int {
    Min(EventsPerPage, |groups| - visibleCount)
  }

  /** The button is shown exactly when the visible prefix is not the whole
      list, and then it promises between one and three more groups, which
      is what one more page shows. */
  lemma LoadMoreShownIffHidden(groups: seq<Group>, visibleCount: nat)
    ensures ShowLoadMore(groups, visibleCount) <==> Visible(groups, visibleCount) != groups
    ensures ShowLoadMore(groups, visibleCount) ==>
      1 <= LoadMoreLabel(groups, visibleCount) <= EventsPerPage
      && |Visible(groups, visibleCount + EventsPerPage)| == visibleCount + LoadMoreLabel(groups, visibleCount)
  {
    if !ShowLoadMore(groups, visibleCount) {
      assert Visible(groups, visibleCount) == groups;
    } else {
      assert |Visible(groups, visibleCount)| == visibleCount < |groups|;
    }
  }

  /** Loading more only extends what is visible: the old visible groups
      stay, in order, at the front. */
  lemma LoadMoreExtends(groups: seq<Group>, visibleCount: nat)
    ensures var before := Visible(groups, visibleCount);
            var after := Visible(groups, visibleCount + EventsPerPage);
            |before| <= |after| && after[..|before|] == before
  {
  }

  /** Starting from one page, `k` presses of "load more" show the first
      `3 * (k + 1)` groups. */
  lemma {:induction false} PagesAfterLoads(groups: seq<Group>, k: nat)
    ensures Visible(groups, PageCount(k)) == groups[..Min(EventsPerPage * (k + 1), |groups|)]
  {
    if k > 0 {
      PagesAfterLoads(groups, k - 1);
    }
  }

  /** The visible count after `k` presses of "load more" from a reset. */
  function PageCount(k: nat): (c: nat)
    ensures c == EventsPerPage * (k + 1)
  {
    if k == 0 then EventsPerPage else PageCount(k - 1) + EventsPerPage
  }

  /** The sum of the scores, as `reduce((sum, e) => sum + e.drowsiness_score, 0)`. */
  function ScoreSum(events: seq<Event>): real
    decreases |events|
  {
    if events == [] then 0.0 else ScoreSum(events[..|events| - 1]) + events[|events| - 1].score
  }

  /** Scores are probabilities. */
  predicate ScoresInUnit(events: seq<Event>) {
    forall j :: 0 <= j < |events| ==> 0.0 <= events[j].score <= 1.0
  }

  /** With scores in [0, 1], the sum of `n` scores is in [0, n]. */
  lemma {:induction false} ScoreSumBounds(events: seq<Event>)
    ensures ScoresInUnit(events) ==> 0.0 <= ScoreSum(events) <= |events| as real
    decreases |events|
  {
    if events != [] && ScoresInUnit(events) {
      var init := events[..|events| - 1];
      assert ScoresInUnit(init) by {
        forall j | 0 <= j < |init| ensures 0.0 <= init[j].score <= 1.0 {
          assert init[j] == events[j];
        }
      }
      ScoreSumBounds(init);
    }
  }

  /** A ratio of a sum in [0, n] to n lies in [0, 1]. */
  lemma RatioInUnit(sum: real, n: real)
    requires 0.0 < n && 0.0 <= sum <= n
    ensures 0.0 <= sum / n <= 1.0
  {
    assert sum / n * n == sum;
  }

  /** `avgScore`: the mean score, 0 for no events. */
  function AverageScore(events: seq<Event>): (avg: real)
    ensures events == [] ==> avg == 0.0
    ensures ScoresInUnit(events) ==> 0.0 <= avg <= 1.0
  {
    ScoreSumBounds(events);
    if |events| > 0 then
      var n := |events| as real;
      if ScoresInUnit(events) then RatioInUnit(ScoreSum(events), n); ScoreSum(events) / n
      else ScoreSum(events) / n
    else 0.0
  }

  /** `stats`: the counts are taken over all loaded events, whatever the
      filter; every event is either drowsy or alert, and with scores in
      [0, 1] the average is in [0, 1] (and 0 for no events). */
  function ComputeStats(events: seq<Event>): (s: Stats)
    ensures s.total == |events|
    ensures s.drowsy == |Filtered(events, DrowsyOnly)| && s.alert == |Filtered(events, AlertOnly)|
    ensures s.drowsy + s.alert == s.total
    ensures events == [] ==> s.avgScore == 0.0
    ensures ScoresInUnit(events) ==> 0.0 <= s.avgScore <= 1.0
  {
    FilteredSplit(events);
    Stats(|events|, |Filtered(events, DrowsyOnly)|, |Filtered(events, AlertOnly)|, AverageScore(events))
  }

  /** `if (sessionId)`: a missing id and the id 0 both count as no session. */
  predicate HasSession(sessionId: Option<int>) {
    sessionId.Some? && sessionId.value != 0
  }

  class History {
    var events: seq<Event>
    var filter: Filter
    var visibleCount: nat
    var error: Option<string>

    constructor ()
      ensures events == [] && filter == All && visibleCount == EventsPerPage && error == None
    {
      events := [];
      filter := All;
      visibleCount := EventsPerPage;
      error := None;
    }

    /** `combinedEvents`: the filter is applied first, then runs are grouped. */
    function Combined(): seq<Group>
      reads this
    {
      Runs(Filtered(events, filter))
    }

    /** `visibleEvents`. */
    function VisibleEvents(): (r: seq<Group>)
      reads this
      ensures |r| == Min(visibleCount, |Combined()|)
      ensures r == Combined()[..|r|]
    {
      Visible(Combined(), visibleCount)
    }

    /** The `sessionId` effect: a session loads its events, no session
        clears them. */
    method SessionChanged(sessionId: Option<int>, result: LoadResult)
      modifies this
      ensures !HasSession(sessionId) ==>
        events == [] && visibleCount == old(visibleCount) && error == old(error)
      ensures HasSession(sessionId) ==> Loads(old(visibleCount), result)
      ensures filter == old(filter)
    {
      if HasSession(sessionId) {
        LoadEvents(sessionId, result);
      } else {
        events := [];
      }
    }

    /** The state left by one load. */
    ghost predicate Loads(oldVisibleCount: nat, result: LoadResult)
      reads this
    {
      match result
      case Loaded(data) => events == data && visibleCount == EventsPerPage && error == None
      case NotAnArray => events == [] && visibleCount == EventsPerPage && error == None
      case LoadFailed(message) =>
        events == [] && visibleCount == oldVisibleCount && error == Some(message.GetOr(LoadFailedMessage))
    }

    /** `loadEvents`: without a session nothing happens; a successful load
        replaces the events (an array is required) and resets paging to
        one page; a failure clears the events and shows the error,
        leaving the page count as it was. */
    method LoadEvents(sessionId: Option<int>, result: LoadResult)
      modifies this
      ensures !HasSession(sessionId) ==>
        events == old(events) && visibleCount == old(visibleCount) && error == old(error)
      ensures HasSession(sessionId) ==> Loads(old(visibleCount), result)
      ensures filter == old(filter)
    {
      if !HasSession(sessionId) {
        return;
      }
      error := None;
      match result {
        case Loaded(data) =>
          events := data;
          visibleCount := EventsPerPage;
        case NotAnArray =>
          events := [];
          visibleCount := EventsPerPage;
        case LoadFailed(message) =>
          error := Some(message.GetOr(LoadFailedMessage));
          events := [];
      }
    }

    /** `loadMore`: one more page of groups. */
    method LoadMore()
      modifies this
      ensures visibleCount == old(visibleCount) + EventsPerPage
      ensures events == old(events) && filter == old(filter) && error == old(error)
    {
      visibleCount := visibleCount + EventsPerPage;
    }

    /** A filter button: the filter changes and the page count is kept. */
    method SetFilter(f: Filter)
      modifies this
      ensures filter == f
      ensures events == old(events) && visibleCount == old(visibleCount) && error == old(error)
    {
      filter := f;
    }

    /** The close button on the error banner. */
    method DismissError()
      modifies this
      ensures error == None
      ensures events == old(events) && visibleCount == old(visibleCount) && filter == old(filter)
    {
      error := None;
    }
  }

  /** After a successful load, changing the filter to one state shows at
      most one group, since filtering to a single state leaves one run. */
  method FilterToStateShowsOneGroup(data: seq<Event>, f: Filter) returns (shown: nat)
    requires f != All
    ensures shown <= 1
  {
    var h := new History();
    h.LoadEvents(Some(1), Loaded(data));
    h.SetFilter(f);
    RunsAfterStateFilter(h.events, f);
    shown := |h.VisibleEvents()|;
  }
}
