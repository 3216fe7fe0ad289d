/** The session list (`SessionManager`): loading, five sessions per page
    with next/previous/first navigation, creating a session at the front
    and deleting one. The sessions API and the confirmation dialog are
    inputs. */
module SessionManager {
  import opened Wrappers

  /** `sessionsPerPage`. */
  const SessionsPerPage: nat := 5
  const LoadFailedMessage: string := "Не удалось загрузить сеансы"
  const CreateFailedMessage: string := "Не удалось создать сеанс"
  const DeleteFailedMessage: string := "Не удалось удалить сеанс"

  /** A session as listed; times are integer milliseconds. */
  datatype Session = Session(id: int, startMs: int, endMs: Option<int>, status: string, notes: string)

  /** The outcome of `sessionsAPI.getSessions`. */
  datatype LoadResult = Loaded(data: seq<Session>) | NotAnArray | LoadFailed(message: Option<string>)

  /** The outcome of `sessionsAPI.createSession`. */
  datatype CreateResult = Created(session: Session) | CreateFailed(message: Option<string>)

  /** `Math.ceil(n / 5)`: the fewest pages of five that hold `n` sessions. */
  function TotalPages(n: nat): (t: nat)
    ensures n <= t * SessionsPerPage
    ensures t > 0 ==> (t - 1) * SessionsPerPage < n
    ensures t == 0 <==> n == 0
  {
    (n + SessionsPerPage - 1) / SessionsPerPage
  }

  function Min(a: int, b: int): int {
    if a <= b then a else b
  }

  /** `startIndex`. */
  function StartIndex(page: int): int {
    (page - 1) * SessionsPerPage
  }

  /** `sessions.slice(startIndex, startIndex + 5)` for a page from 1 on:
      the sessions at positions `startIndex` up to five further, cut off
      at the end of the list. */
  function PageOf(sessions: seq<Session>, page: int): (r: seq<Session>)
    requires page >= 1
    ensures |r| <= SessionsPerPage
    ensures var lo := Min(StartIndex(page), |sessions|);
      lo + |r| <= |sessions| && r == sessions[lo..lo + |r|]
    ensures StartIndex(page) + SessionsPerPage <= |sessions| ==> |r| == SessionsPerPage
    ensures page > TotalPages(|sessions|) ==> r == []
  {
    var lo := Min(StartIndex(page), |sessions|);
    var hi := Min(StartIndex(page) + SessionsPerPage, |sessions|);
    sessions[lo..hi]
  }

  /** The `count` pages from page `from` on, one after the other. */
  function PagesFrom(sessions: seq<Session>, from: int, count: nat): seq<Session>
    requires from >= 1
    decreases count
  {
    if count == 0 then [] else PageOf(sessions, from) + PagesFrom(sessions, from + 1, count - 1)
  }

  /** The pages from `from` to the last one hold exactly the sessions from
      that page's start on. */
  lemma {:induction false} PagesFromCover(sessions: seq<Session>, from: int, count: nat)
    requires from >= 1 && from + count == TotalPages(|sessions|) + 1
    ensures PagesFrom(sessions, from, count) == sessions[Min(StartIndex(from), |sessions|)..]
    decreases count
  {
    if count > 0 {
      PagesFromCover(sessions, from + 1, count - 1);
      var lo := Min(StartIndex(from), |sessions|);
      var hi := Min(StartIndex(from) + SessionsPerPage, |sessions|);
      assert StartIndex(from + 1) == StartIndex(from) + SessionsPerPage;
      assert sessions[lo..] == sessions[lo..hi] + sessions[hi..];
    } else {
      assert StartIndex(from) >= TotalPages(|sessions|) * SessionsPerPage;
    }
  }

  /** Reading pages 1 to `totalPages` in order gives back the whole list. */
  lemma PagesCoverList(sessions: seq<Session>)
    ensures PagesFrom(sessions, 1, TotalPages(|sessions|)) == sessions
  {
    PagesFromCover(sessions, 1, TotalPages(|sessions|));
  }

  /** No session appears on two pages: the pages are disjoint ranges. */
  lemma PagesDisjoint(sessions: seq<Session>, p: int, q: int)
    requires 1 <= p < q
    ensures Min(StartIndex(p), |sessions|) + |PageOf(sessions, p)| <= Min(StartIndex(q), |sessions|)
  {
  }

  /** `sessions.filter(session => session.id !== id)`. */
  function Without(sessions: seq<Session>, id: int): (r: seq<Session>)
    ensures |r| <= |sessions|
    decreases |sessions|
  {
    if sessions == [] then []
    else if sessions[0].id == id then Without(sessions[1..], id)
    else [sessions[0]] + Without(sessions[1..], id)
  }

  /** Deleting keeps exactly the sessions with another id. */
  lemma {:induction false} WithoutMembers(sessions: seq<Session>, id: int)
    ensures forall s :: s in Without(sessions, id) <==> s in sessions && s.id != id
    decreases |sessions|
  {
    if sessions != [] {
      WithoutMembers(sessions[1..], id);
      assert forall s :: s in sessions <==> s == sessions[0] || s in sessions[1..];
    }
  }

  /** Deleting keeps the order of the remaining sessions and is exactly
      the identity when no session has that id. */
  lemma {:induction false} WithoutAbsent(sessions: seq<Session>, id: int)
    requires forall j :: 0 <= j < |sessions| ==> sessions[j].id != id
    ensures Without(sessions, id) == sessions
    decreases |sessions|
  {
    if sessions != [] {
      WithoutAbsent(sessions[1..], id);
    }
  }

  /** Deleting from a list with one more session in front. */
  lemma {:induction false} WithoutCons(x: Session, rest: seq<Session>, id: int)
    ensures Without([x] + rest, id) == if x.id == id then Without(rest, id) else [x] + Without(rest, id)
  {
    assert ([x] + rest)[0] == x && ([x] + rest)[1..] == rest;
  }

  /** Deleting distributes over concatenation, so relative order is kept. */
  lemma {:induction false} WithoutAppend(a: seq<Session>, b: seq<Session>, id: int)
    ensures Without(a + b, id) == Without(a, id) + Without(b, id)
    decreases |a|
  {
    if a == [] {
      assert a + b == b;
    } else {
      var x, rest := a[0], a[1..];
      assert a == [x] + rest && a + b == [x] + (rest + b);
      WithoutAppend(rest, b, id);
      WithoutCons(x, rest + b, id);
      WithoutCons(x, rest, id);
      if x.id != id {
        assert [x] + (Without(rest, id) + Without(b, id)) == ([x] + Without(rest, id)) + Without(b, id);
      }
    }
  }

  /** The page the list may show: from 1 to the last page, or 1 for an
      empty list. */
  predicate PageInRange(page: int, n: nat) {
    1 <= page <= (if TotalPages(n) > 1 then TotalPages(n) else 1)
  }

  class SessionList {
    var sessions: seq<Session>
    var currentPage: int
    var error: Option<string>
    /** The selected session (the parent's `currentSessionId`). */
    var selected: Option<int>

    ghost predicate Valid()
      reads this
    {
      currentPage >= 1
    }

    constructor ()
      ensures Valid()
      ensures sessions == [] && currentPage == 1 && error == None && selected == None
    {
      sessions := [];
      currentPage := 1;
      error := None;
      selected := None;
    }

    /** `currentSessions`. */
    function CurrentSessions(): (r: seq<Session>)
      requires Valid()
      reads this
      ensures |r| <= SessionsPerPage
    {
      PageOf(sessions, currentPage)
    }

    /** `loadSessions`: a successful load replaces the list (an array is
        required) and returns to page 1; a failure empties the list and
        shows the error, keeping the page. */
    method LoadSessions(result: LoadResult)
      requires Valid()
      modifies this
      ensures Valid()
      ensures result.Loaded? ==> sessions == result.data && currentPage == 1 && error == None
      ensures result.NotAnArray? ==> sessions == [] && currentPage == 1 && error == None
      ensures result.LoadFailed? ==>
        sessions == [] && currentPage == old(currentPage)
        && error == Some(result.message.GetOr(LoadFailedMessage))
      ensures selected == old(selected)
    {
      error := None;
      match result {
        case Loaded(data) =>
          sessions := data;
          currentPage := 1;
        case NotAnArray =>
          sessions := [];
          currentPage := 1;
        case LoadFailed(message) =>
          error := Some(message.GetOr(LoadFailedMessage));
          sessions := [];
      }
    }

    /** `handleNextPage`: forward only while a later page exists. */
    method NextPage()
      requires Valid()
      modifies this
      ensures Valid()
      ensures currentPage == if old(currentPage) < TotalPages(|sessions|) then old(currentPage) + 1 else old(currentPage)
      ensures PageInRange(old(currentPage), |sessions|) ==> PageInRange(currentPage, |sessions|)
      ensures sessions == old(sessions) && error == old(error) && selected == old(selected)
    {
      if currentPage < TotalPages(|sessions|) {
        currentPage := currentPage + 1;
      }
    }

    /** `handlePrevPage`: back only while past the first page. */
    method PrevPage()
      requires Valid()
      modifies this
      ensures Valid()
      ensures currentPage == if old(currentPage) > 1 then old(currentPage) - 1 else old(currentPage)
      ensures PageInRange(old(currentPage), |sessions|) ==> PageInRange(currentPage, |sessions|)
      ensures sessions == old(sessions) && error == old(error) && selected == old(selected)
    {
      if currentPage > 1 {
        currentPage := currentPage - 1;
      }
    }

    /** `handleFirstPage`. */
    method FirstPage()
      requires Valid()
      modifies this
      ensures Valid()
      ensures currentPage == 1 && PageInRange(currentPage, |sessions|)
      ensures sessions == old(sessions) && error == old(error) && selected == old(selected)
    {
      currentPage := 1;
    }

    /** `handleCreateSession`: the new session goes to the front of the
        list and is selected; the page is kept, and stays in range since
        the list only grows. */
    method CreateSession(result: CreateResult)
      requires Valid()
      modifies this
      ensures Valid()
      ensures result.Created? ==>
        sessions == [result.session] + old(sessions) && selected == Some(result.session.id) && error == None
      ensures result.CreateFailed? ==>
        sessions == old(sessions) && selected == old(selected)
        && error == Some(result.message.GetOr(CreateFailedMessage))
      ensures currentPage == old(currentPage)
      ensures PageInRange(old(currentPage), |old(sessions)|) ==> PageInRange(currentPage, |sessions|)
    {
      error := None;
      match result {
        case Created(session) =>
          sessions := [session] + sessions;
          selected := Some(session.id);
        case CreateFailed(message) =>
          error := Some(message.GetOr(CreateFailedMessage));
      }
    }

    /** `handleDeleteSession`: nothing unless confirmed. When the API call
        succeeds the list is reloaded and then replaced by the list as it
        was before the call without that id, so the reloaded data is
        discarded; the selection is cleared if it was the deleted session.
        When the call fails the error is shown and the list is reloaded,
        which clears that error again. */
    method DeleteSession(id: int, confirmed: bool, deleted: Option<string>, deleteOk: bool, reload: LoadResult)
      requires Valid()
      modifies this
      ensures Valid()
      ensures !confirmed ==>
        sessions == old(sessions) && currentPage == old(currentPage)
        && error == old(error) && selected == old(selected)
      ensures confirmed && deleteOk ==>
        sessions == Without(old(sessions), id)
        && selected == (if old(selected) == Some(id) then None else old(selected))
      ensures confirmed && !deleteOk ==>
        selected == old(selected)
        && (reload.Loaded? ==> sessions == reload.data)
        && (!reload.Loaded? ==> sessions == [])
      ensures confirmed ==>
        (reload.LoadFailed? ==> currentPage == old(currentPage) && error == Some(reload.message.GetOr(LoadFailedMessage)))
        && (!reload.LoadFailed? ==> currentPage == 1 && error == None)
    {
      if !confirmed {
        return;
      }
      error := None;
      var before := sessions;
      if deleteOk {
        LoadSessions(reload);
        sessions := Without(before, id);
        if selected == Some(id) {
          selected := None;
        }
      } else {
        error := Some(deleted.GetOr(DeleteFailedMessage));
        LoadSessions(reload);
      }
    }
  }

  /** A delete whose reload fails can leave the list on a page past its
      last one: with six sessions on page 2, deleting one leaves five
      sessions (one page) while the page stays 2, which shows nothing. */
  method DeleteCanLeavePageOutOfRange(s: Session, others: seq<Session>) returns (page: int, pages: nat, shown: nat)
    requires |others| == 5 && forall j :: 0 <= j < 5 ==> others[j].id != s.id
    ensures page == 2 && pages == 1 && shown == 0
  {
    var list := new SessionList();
    list.LoadSessions(Loaded([s] + others));
    list.NextPage();
    list.DeleteSession(s.id, true, None, true, LoadFailed(None));
    assert [s] + others == [s] + others[..];
    WithoutAbsent(others, s.id);
    assert Without([s] + others, s.id) == others;
    page := list.currentPage;
    pages := TotalPages(|list.sessions|);
    shown := |list.CurrentSessions()|;
  }
}
