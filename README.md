# AI_DETECTOR core, modelled in Dafny

AI_DETECTOR watches a driver through the browser camera and flags drowsiness.
The browser sends frames over a WebSocket to a Go server. The server passes
them to an ML service and returns detection results. Sessions, events and
users are kept by a REST backend.

This project models the logic of that system that is not I/O:

- **The browser's connection manager** (`WebSocketService`): connect, the
  open/message/close handlers, reconnect timers, handler registration, dispatch
  and send.
- **The camera component**: the start and stop gates, which frames are captured,
  and the frame sequence counter. Also the mapping of result and error payloads.
- **Run-length grouping of drowsiness events**: the event history panel with its
  filter, "load more" paging and statistics. The session details page with its
  state-change count and shown list. The session list with five sessions per
  page, create, delete and load. The duration split both pages use.
- **The C++ array vector in `main.cpp`**: growth, removal, element access,
  update, get, left and right rotation by triple reversal, and the command loop
  as an output trace.
- **The Go authentication handlers**:
  - the e-mail, password and user-name validators;
  - the order in which `Register` and `Login` reject a request;
  - the in-memory session table that `Login`, `Logout` and the cookie lookup
    share.
- **The Go server**:
  - the CORS origin policy;
  - the listeners' port argument;
  - what the WebSocket read loop sends back for each message it reads.

State that the source changes in place is modelled as classes:

- the connection manager;
- the camera component;
- the history panel;
- the session list;
- the vector, which keeps an `array` and its grow, shift and swap loops;
- the Go session table.

Loops in the source are methods with loop invariants. Each method is proved equal to a specification function, and the properties are lemmas about those functions.

Inputs from outside the model are parameters of the operations:

- the clock;
- camera permission, the video and canvas elements and frame encoding;
- REST replies, the database, bcrypt and the JSON decoder;
- the host name `url.Parse` finds in an origin;
- the ML service's health and reply;
- which socket events happen.

The configuration `config.Config` is an input to the origin policy (its `CORSOrigins` and `Environment`). `IsDev` means `Environment == "dev"`.

Where the design notes and the code disagree, the model follows the code:

- **Group duration.** It is `floor((first - last) / 1000)` with no absolute
  value. So it is non-negative only for events that come newest first, which is
  the order the events API returns. The design notes' ascending example gives a
  duration of -1 for its first group in the code, and `RunsExample` restates the
  example newest first.
- **Grouping key.** The code groups only by drowsiness state. There is no
  grouping by score decile.
- **Throwing handlers.** The code's `forEach` stops at the first handler that
  throws. The design notes call for each handler invocation to be isolated.
- **Reconnect cap.** The cap of 10 attempts is never reached on the timer path:
  each timer increments the counter, but the `connect()` that follows resets it
  to 0 (`ReconnectCycles`).
- **No `Terminated` state.** There is only the `shouldReconnect` flag. A pending
  reconnect timer still fires after `disconnect()`, and its `connect()` sets the
  flag again.
- **Unknown message types.** They reach no handler; there is no wildcard
  subscriber.

## Model

| member | source | states |
|---|---|---|
| WebSocket.WebSocketService.constructor | frontend/src/services/websocket.ts:12-18 | a new service has no socket, no handlers, zero attempts and reconnection enabled |
| WebSocket.WebSocketService.IsConnected | frontend/src/services/websocket.ts:144-146 | true exactly when there is a socket and it is OPEN |
| WebSocket.WebSocketService.Connect | frontend/src/services/websocket.ts:32-43 | no-op while OPEN or CONNECTING; otherwise re-enables reconnection, zeroes the attempt counter and opens a CONNECTING socket; handlers, timers and logs untouched |
| WebSocket.WebSocketService.OnOpen | frontend/src/services/websocket.ts:45-50 | the socket becomes OPEN, attempts reset to 0, and exactly the 'open' handlers are invoked in order |
| WebSocket.WebSocketService.OnMessage | frontend/src/services/websocket.ts:52-65 | a text frame that parses is dispatched to its type's handlers; an unparsable or binary frame invokes nothing; connection fields never change |
| WebSocket.WebSocketService.OnClose | frontend/src/services/websocket.ts:67-89 | the socket is forgotten; codes 1002/1006/1008 disable reconnection; 'close' handlers run; a timer is scheduled iff no close handler throws, reconnection is still enabled and attempts < 10 |
| WebSocket.WebSocketService.FireReconnectTimer | frontend/src/services/websocket.ts:81-85 | a pending timer is consumed, increments attempts and runs connect, which resets attempts to 0 unless a socket is live |
| WebSocket.WebSocketService.HandleMessage | frontend/src/services/websocket.ts:98-101 | invokes exactly the handlers of the message's type, in registration order, with its payload; none for an unregistered type |
| WebSocket.WebSocketService.Trigger | frontend/src/services/websocket.ts:131-134 | handler invocations are appended in registration order; it reports a throw iff some handler of the type throws, and stops there |
| WebSocket.WebSocketService.On | frontend/src/services/websocket.ts:103-108 | the handler is appended to the end of its type's list; other types unchanged |
| WebSocket.WebSocketService.Off | frontend/src/services/websocket.ts:110-116 | removes only the first registration of the handler under that type; no change if it is absent |
| WebSocket.WebSocketService.Send | frontend/src/services/websocket.ts:118-129 | `{type, payload}` is written iff the socket is OPEN; otherwise nothing is sent or queued |
| WebSocket.WebSocketService.Disconnect | frontend/src/services/websocket.ts:136-142 | reconnection disabled and the socket forgotten; pending timers are not cancelled |
| WebSocket.WebSocketService.ReconnectAfterAuth | frontend/src/services/websocket.ts:149-155 | nothing when open; otherwise re-enables reconnection, zeroes attempts and connects |
| WebSocket.CallsOf | frontend/src/services/websocket.ts:133 | one call per handler, in order, each with the payload |
| WebSocket.Reached | frontend/src/services/websocket.ts:133 | `forEach` reaches exactly the handlers before the first throwing one |
| WebSocket.DispatchedOrder | frontend/src/services/websocket.ts:131-134 | with no throwing handler every handler is called once in order; a throwing handler cuts off those after it |
| WebSocket.IndexOf | frontend/src/services/websocket.ts:112 | the first position of the handler, or -1 exactly when it is absent |
| WebSocket.RemoveFirst | frontend/src/services/websocket.ts:113-115 | removing the first occurrence shortens the list by one and removes one copy from its multiset |
| WebSocket.RemoveFirstKeepsOrder | frontend/src/services/websocket.ts:110-116 | the list after `off` is the list before with the element at `indexOf` cut out, so all others keep their order |
| WebSocket.PolicyViolationScenario | frontend/src/services/websocket.ts:67-85 | a 1008 close of an open connection schedules no reconnect and leaves reconnection disabled |
| WebSocket.ReconnectCycles | frontend/src/services/websocket.ts:40-84 | n closes with a normal code, each followed by its timer, schedule n reconnects: the cap is never hit |
| CameraFeed.Camera.constructor | frontend/src/components/CameraFeed.tsx:25-30 | not streaming, not detecting, counter 0, nothing sent |
| CameraFeed.Camera.StartCamera | frontend/src/components/CameraFeed.tsx:32-61 | no effect without an active session; a granted stream with a video element starts streaming and clears the error; a denied request reports its message or the default; the counter is kept |
| CameraFeed.Camera.StopCamera | frontend/src/components/CameraFeed.tsx:68-78 | stream released, not streaming, no detection shown; the result does not depend on the prior state (idempotent); counter kept |
| CameraFeed.Camera.CaptureFrame | frontend/src/components/CameraFeed.tsx:85-140 | sends nothing and keeps the counter for each of the six guards; encoding precedes the increment; a sent frame carries the old counter, which rises by 1; an encoding failure reports and does not advance; isDetecting is false after entering the try block |
| CameraFeed.Camera.IntervalTick | frontend/src/components/CameraFeed.tsx:194-202 | without streaming or a positive interval nothing is captured and nothing changes; with an active interval the tick has exactly captureFrame's effects: a frame is sent iff every guard passes and the encoding succeeds, numbered with the old counter, which then goes up by one; a failed encoding is reported; isDetecting ends false |
| CameraFeed.Camera.OnDetectionResult | frontend/src/components/CameraFeed.tsx:144-155 | marks a detection and returns the mapped result |
| CameraFeed.Camera.OnServerError | frontend/src/components/CameraFeed.tsx:157-161 | shows and reports the payload's message, or 'Processing failed' when it is absent or empty |
| CameraFeed.ToDetectionResult | frontend/src/components/CameraFeed.tsx:145-152 | every field copied, `inference_time` becomes `inference_time_ms`, `sequence_number` echoed |
| CameraFeed.ErrorText | frontend/src/components/CameraFeed.tsx:158 | never empty: the message when it is non-empty, else 'Processing failed' |
| CameraFeed.RestartKeepsNumbering | frontend/src/components/CameraFeed.tsx:30-131 | frames before and after a stop/start are numbered 0 and 1: the counter is never reset |
| EventGrouping.CombineConsecutiveEvents | frontend/src/components/EventHistory.tsx:44-84 | the loop computes the maximal runs `Runs(events)`; the page copy at SessionDetailsPage.tsx:63-103 is the same code |
| EventGrouping.Summarize | frontend/src/components/EventHistory.tsx:61-65 | a run's summary takes the first event as template and the run length as count |
| EventGrouping.LeadingRun | frontend/src/components/EventHistory.tsx:50-55 | the first run has between 1 and all of the events |
| EventGrouping.LeadingRunMaximal | frontend/src/components/EventHistory.tsx:50-55 | the first run is uniform and ends exactly at the first state change |
| EventGrouping.RunsEmpty | frontend/src/components/EventHistory.tsx:45 | no groups exactly for no events |
| EventGrouping.RunsConserve | frontend/src/components/EventHistory.tsx:48-83 | the counts add up to the number of events, and expanding each group by its count gives back the states |
| EventGrouping.RunsCount | frontend/src/components/EventHistory.tsx:48-83 | the counts add up to the number of events |
| EventGrouping.RunsExpand | frontend/src/components/EventHistory.tsx:48-83 | expanding each group by its count reproduces the `is_drowsy` sequence |
| EventGrouping.RunsMaximal | frontend/src/components/EventHistory.tsx:54-67 | neighbouring groups differ in state |
| EventGrouping.RunsTemplate | frontend/src/components/EventHistory.tsx:57-81 | group k is the first event of its run, its count events all share its state, and its duration is the span of the run in whole seconds |
| EventGrouping.RunsDurationNonNegative | frontend/src/components/EventHistory.tsx:57-59 | for newest-first events no duration is negative |
| EventGrouping.RunsSingle | frontend/src/components/EventHistory.tsx:71-81 | one event: one group, count 1, duration 0 |
| EventGrouping.RunsAllSame | frontend/src/components/EventHistory.tsx:54-55 | n events in one state: one group of count n |
| EventGrouping.RunsOfTemplates | frontend/src/components/EventHistory.tsx:44-84 | regrouping groups' templates gives one group per template |
| EventGrouping.RunsIdempotent | frontend/src/components/EventHistory.tsx:44-84 | grouping the groups' templates again yields the same templates |
| EventGrouping.RunsExample | frontend/src/components/EventHistory.tsx:44-84 | two alert events one second apart, then a drowsy one, give (alert, 1 s, 2) and (drowsy, 0 s, 1) |
| EventGrouping.CountStateChanges | frontend/src/pages/SessionDetailsPage.tsx:52-61 | the number of adjacent pairs with different states; 0 for fewer than two events |
| EventGrouping.StateChangesAppend | frontend/src/pages/SessionDetailsPage.tsx:55-59 | changes of a concatenation are the parts' changes, plus one if the seam changes state |
| EventGrouping.StateChangesUniform | frontend/src/pages/SessionDetailsPage.tsx:55-59 | a single-state sequence has no change |
| EventGrouping.StateChangesCountsRuns | frontend/src/pages/SessionDetailsPage.tsx:52-103 | for non-empty events, state changes = number of groups - 1 |
| EventGrouping.Filtered | frontend/src/components/EventHistory.tsx:86-90 | keeps exactly the events the filter admits, and only those |
| EventGrouping.FilteredAppend | frontend/src/components/EventHistory.tsx:86-90 | filtering distributes over concatenation, so order is kept |
| EventGrouping.FilteredAll | frontend/src/components/EventHistory.tsx:89 | 'all' keeps everything |
| EventGrouping.FilteredSplit | frontend/src/components/EventHistory.tsx:110-113 | drowsy and alert counts add up to the total |
| EventGrouping.RunsAfterStateFilter | frontend/src/components/EventHistory.tsx:86-92 | grouping after a single-state filter yields at most one group |
| EventHistory.Visible | frontend/src/components/EventHistory.tsx:93 | the prefix of length min(visibleCount, number of groups) |
| EventHistory.LoadMoreShownIffHidden | frontend/src/components/EventHistory.tsx:236-239 | the button shows exactly when some group is hidden; its label lies in 1..3 and is exactly how many more groups one more page shows |
| EventHistory.LoadMoreExtends | frontend/src/components/EventHistory.tsx:93-97 | loading more keeps the visible groups as a prefix |
| EventHistory.PagesAfterLoads | frontend/src/components/EventHistory.tsx:93-97 | k presses from a reset show the first 3(k+1) groups |
| EventHistory.PageCount | frontend/src/components/EventHistory.tsx:95-97 | the count after k presses is 3(k+1) |
| EventHistory.ScoreSumBounds | frontend/src/components/EventHistory.tsx:116 | with scores in [0,1] the sum of n scores lies in [0,n] |
| EventHistory.AverageScore | frontend/src/components/EventHistory.tsx:114-117 | 0 for no events; in [0,1] when the scores are |
| EventHistory.ComputeStats | frontend/src/components/EventHistory.tsx:109-118 | counts over all events: the total, drowsy = drowsy-filter length, alert = alert-filter length, drowsy + alert = total |
| EventHistory.History.constructor | frontend/src/components/EventHistory.tsx:13-17 | no events, filter 'all', three visible, no error |
| EventHistory.History.VisibleEvents | frontend/src/components/EventHistory.tsx:92-93 | the shown groups are a prefix of the runs of the filtered events |
| EventHistory.History.SessionChanged | frontend/src/components/EventHistory.tsx:19-25 | a session loads; no session clears the events |
| EventHistory.History.LoadEvents | frontend/src/components/EventHistory.tsx:27-42 | success replaces the events (not-an-array gives none) and resets paging to 3; failure clears them and shows the message or the default |
| EventHistory.History.LoadMore | frontend/src/components/EventHistory.tsx:95-97 | three more visible, nothing else changes |
| EventHistory.History.SetFilter | frontend/src/components/EventHistory.tsx:172-179 | the filter changes; the visible count is kept |
| EventHistory.History.DismissError | frontend/src/components/EventHistory.tsx:142 | the error is cleared, nothing else changes |
| EventHistory.FilterToStateShowsOneGroup | frontend/src/components/EventHistory.tsx:86-93 | after a load, a single-state filter shows at most one group |
| SessionDetails.DisplayEvents | frontend/src/pages/SessionDetailsPage.tsx:105-114 | grouped exactly under 'all', and then the groups conserve the events; otherwise exactly the filtered events of that state |
| SessionDetails.ComputePageStats | frontend/src/pages/SessionDetailsPage.tsx:116-148 | counts over all events whatever the filter; state changes = groups - 1 for non-empty events, 0 for none |
| SessionDetails.DisplayAgreesWithStats | frontend/src/pages/SessionDetailsPage.tsx:105-148 | the shown list's size matches the card's count for each filter |
| Durations.JsRem | frontend/src/pages/SessionDetailsPage.tsx:127-128 | JavaScript `%`: the remainder has the dividend's sign, is smaller than the divisor in magnitude, and differs from the dividend by a multiple of the divisor, which together fix its value |
| Durations.FloorDiv | frontend/src/pages/SessionDetailsPage.tsx:125-126 | `Math.floor(a / b)`: q·b ≤ a < q·b + b |
| Durations.SplitExact | frontend/src/pages/SessionDetailsPage.tsx:122-130 | for diff ≥ 0: h·3600 + m·60 + s = diff, with 0 ≤ m < 60 and 0 ≤ s < 60 |
| Durations.GetDurationExact | frontend/src/components/SessionManager.tsx:138-146 | a session that ends no earlier than it starts gets an exact split with minutes and seconds below 60 |
| Durations.SplitNegative | frontend/src/pages/SessionDetailsPage.tsx:126-128 | a negative diff that is not whole hours is shown smaller than it is |
| Durations.SplitMinusOne | frontend/src/pages/SessionDetailsPage.tsx:126-128 | one second before the start reads -1 h -1 min -1 s |
| SessionManager.TotalPages | frontend/src/components/SessionManager.tsx:149 | `ceil(n/5)`: the fewest pages of five that hold n; 0 only for no sessions |
| SessionManager.PageOf | frontend/src/components/SessionManager.tsx:150-151 | the slice from (p-1)·5, at most 5 long, full when enough sessions follow, empty past the last page |
| SessionManager.PagesFromCover | frontend/src/components/SessionManager.tsx:149-151 | the pages from one page to the last concatenate to the rest of the list |
| SessionManager.PagesCoverList | frontend/src/components/SessionManager.tsx:149-151 | pages 1..totalPages concatenate to the whole list |
| SessionManager.PagesDisjoint | frontend/src/components/SessionManager.tsx:150-151 | an earlier page ends before a later one starts |
| SessionManager.Without | frontend/src/components/SessionManager.tsx:112 | the filtered list is never longer than the list |
| SessionManager.WithoutMembers | frontend/src/components/SessionManager.tsx:112 | keeps exactly the sessions with another id |
| SessionManager.WithoutAbsent | frontend/src/components/SessionManager.tsx:112 | deleting an absent id changes nothing |
| SessionManager.WithoutAppend | frontend/src/components/SessionManager.tsx:112 | deleting distributes over concatenation, so order is kept |
| SessionManager.SessionList.constructor | frontend/src/components/SessionManager.tsx:28 | empty list on page 1 |
| SessionManager.SessionList.CurrentSessions | frontend/src/components/SessionManager.tsx:151 | never more than five sessions (one page) |
| SessionManager.SessionList.LoadSessions | frontend/src/components/SessionManager.tsx:31-44 | success replaces the list and goes to page 1; failure empties the list and shows the message or the default |
| SessionManager.SessionList.NextPage | frontend/src/components/SessionManager.tsx:153-157 | forward only while a later page exists; the page stays in range |
| SessionManager.SessionList.PrevPage | frontend/src/components/SessionManager.tsx:159-163 | back only while past page 1; the page stays in range |
| SessionManager.SessionList.FirstPage | frontend/src/components/SessionManager.tsx:165-167 | page 1 |
| SessionManager.SessionList.CreateSession | frontend/src/components/SessionManager.tsx:66-82 | the new session goes to the front and is selected; a failure keeps the list and shows the message or the default |
| SessionManager.SessionList.DeleteSession | frontend/src/components/SessionManager.tsx:103-120 | unconfirmed: nothing; success: the list before the call without that id (the reload is overwritten) and the selection cleared if it was that session; failure: a reload, which clears the error |
| SessionManager.DeleteCanLeavePageOutOfRange | frontend/src/components/SessionManager.tsx:103-120 | after a delete whose reload fails, six sessions viewed on page 2 become five, and the page stays 2 of 1 and shows nothing |
| ArrayVector.Removed | main.cpp:69-72 | one element shorter; elements before the index are kept, later ones move left by one |
| ArrayVector.RotateLeftAt | main.cpp:94-110 | element i of the left rotation is old element (i + num mod n) mod n |
| ArrayVector.RotateRightAt | main.cpp:113-119 | element i of the right rotation is old element (i - num) mod n |
| ArrayVector.ReverseSegmentInvolutive | main.cpp:99-105 | reversing a segment twice restores the sequence |
| ArrayVector.TripleReversal | main.cpp:106-108 | reversing [0, k-1], then [k, n-1], then [0, n-1] leaves the first n elements rotated left by k |
| ArrayVector.RotateByMultiple | main.cpp:97-98 | a shift by a multiple of the size changes nothing |
| ArrayVector.LeftByReduced | main.cpp:97 | only the shift modulo the size matters |
| ArrayVector.RotateRightByLeft | main.cpp:116-118 | `lsh(size - num mod size)` is the right rotation by num |
| ArrayVector.RotateLeftUndoesRight | main.cpp:94-119 | lsh(k) after rsh(k), and rsh(k) after lsh(k), restore the sequence |
| ArrayVector.RotateLeftPermutes | main.cpp:94-110 | left rotation keeps the size and the multiset of elements |
| ArrayVector.RotateRightPermutes | main.cpp:113-119 | right rotation keeps the size and the multiset of elements |
| ArrayVector.Vector.constructor | main.cpp:50 | no storage, capacity 0, no elements |
| ArrayVector.Vector.Resize | main.cpp:30-47 | when full, capacity goes from 0 to 10 or doubles and the elements are copied; otherwise nothing changes; afterwards size < capacity |
| ArrayVector.Vector.Add | main.cpp:57-62 | the value goes after the old elements, which are kept; capacity grows (0 to 10, or doubling) exactly when the vector was full |
| ArrayVector.Vector.Remove | main.cpp:64-74 | an out-of-range index is refused with no change; otherwise exactly that element is removed and later ones shift left |
| ArrayVector.Vector.At | main.cpp:76-82 | the element for an index in [0, size), none (the throw) outside |
| ArrayVector.Vector.Update | main.cpp:84-91 | out of range: refused, no change; in range: exactly that slot changes |
| ArrayVector.Vector.Get | main.cpp:130-137 | out of range: refused and the caller's value untouched; in range: that slot |
| ArrayVector.Vector.Reverse | main.cpp:99-105 | reverses exactly the segment [start, end] of the array and nothing else |
| ArrayVector.Vector.RotateByReversals | main.cpp:106-108 | for 0 < k < size the three in-place reversals leave the contents rotated left by k |
| ArrayVector.Vector.Lsh | main.cpp:93-110 | empty: accepted, no change; negative on non-empty: refused, no change; else the left rotation |
| ArrayVector.Vector.Rsh | main.cpp:112-119 | the same refusals; else the right rotation |
| ArrayVector.ShiftRoundTrip | main.cpp:94-119 | lsh(k) after rsh(k) restores the contents |
| ArrayVector.RunSnoc | main.cpp:156-203 | running one more command extends contents and output by that command's step |
| ArrayVector.Printed | main.cpp:121-128 | the final print emits every element, in order |
| ArrayVector.ExecuteCommand | main.cpp:159-202 | one command changes the contents and prints exactly as the pure step function says, for every command and every error case |
| ArrayVector.Execute | main.cpp:148-204 | the program's output is each command's ERROR or value lines, then the final contents |
| Strings.Contains | go-backend/internal/handlers/handlers.go:128-130 | `strings.Contains`: true exactly when the substring occurs somewhere |
| Strings.Split | go-backend/cmd/server/main.go:75 | `strings.Split` on one character: at least one piece, none containing the separator |
| Strings.JoinSplit | go-backend/cmd/server/main.go:75 | joining the pieces with the separator gives back the string |
| Strings.TrimSpace | go-backend/cmd/server/main.go:78 | `strings.TrimSpace` over decoded code points: the infix without white space at either end; empty exactly for all-white-space input |
| Handlers.EmailPlacement | go-backend/internal/handlers/handlers.go:33 | the pattern matches iff the first `@` and the last dot split the address into a valid local part, domain and top-level domain |
| Handlers.ValidateEmail | go-backend/internal/handlers/handlers.go:33-37 | accepts exactly `local@D.L` (non-empty local part and domain over their classes, at least two letters after the last dot) of at most 255 bytes |
| Handlers.EmailAcceptsShort | go-backend/internal/handlers/handlers.go:33-37 | "a@b.co" is accepted |
| Handlers.EmailAcceptsDotted | go-backend/internal/handlers/handlers.go:33-37 | dots and plus signs in the local part and several domain labels are accepted |
| Handlers.EmailRejectsShortTld | go-backend/internal/handlers/handlers.go:33-37 | a one-letter top-level domain is refused |
| Handlers.EmailRejectsTwoAts | go-backend/internal/handlers/handlers.go:33-37 | a second `@` is refused |
| Handlers.ValidatePassword | go-backend/internal/handlers/handlers.go:39-54 | true iff the length is in [8,72] bytes and there is an ASCII letter and an ASCII digit |
| Handlers.PasswordExamples | go-backend/internal/handlers/handlers.go:39-54 | a letter and a digit are both needed, and at least 8 bytes |
| Handlers.ValidateUsername | go-backend/internal/handlers/handlers.go:56-62 | valid exactly when the length is 3 to 30 bytes and every byte is an ASCII letter, digit or underscore; a valid name holds no '@', '.' or space |
| Handlers.UsernameIsNotEmail | go-backend/internal/handlers/handlers.go:56-62 | a valid user name (3-30 characters of `[A-Za-z0-9_]`) is never a valid address |
| Handlers.ConflictMessage | go-backend/internal/handlers/handlers.go:127-134 | user name taken iff the error names the user-name constraint; else e-mail taken iff it names the e-mail constraint; else user exists |
| Handlers.ConflictPrefersUsername | go-backend/internal/handlers/handlers.go:128-131 | an error naming both constraints reads as a taken user name |
| Handlers.Register | go-backend/internal/handlers/handlers.go:81-151 | each rejection happens exactly when all earlier checks pass and its own fails (method, decode, missing field, e-mail, password, user name, hash, insert); created only for an acceptable request that hashed and inserted |
| Handlers.RegisterReportsFirstProblem | go-backend/internal/handlers/handlers.go:94-112 | an empty password is a missing field, and an invalid address hides later problems |
| Handlers.LoginReply | go-backend/internal/handlers/handlers.go:153-198 | success iff POST, decoded, both fields present, a valid address, a row found and the password matches; unknown address and wrong password get the same reply |
| Handlers.UserIdIn | go-backend/internal/handlers/handlers.go:64-71 | (id, true) iff the cookie is present and its value is a key, with id the mapped user; otherwise (0, false) |
| Handlers.LoginLeavesOneSession | go-backend/internal/handlers/handlers.go:200-220 | after a login the user's only session is the new one, and the new cookie resolves to the user |
| Handlers.LoginKeepsOthers | go-backend/internal/handlers/handlers.go:200-220 | a login keeps every unrelated entry, adds nothing but the new session, and drops the old cookie's key |
| Handlers.LoggedOut | go-backend/internal/handlers/handlers.go:239-242 | only the cookie's key is removed, and that cookie no longer resolves |
| Handlers.LoginThenLogout | go-backend/internal/handlers/handlers.go:200-242 | logging out with the new cookie leaves the user no session |
| Handlers.SessionStore.constructor | go-backend/internal/handlers/handlers.go:19 | the table starts empty |
| Handlers.SessionStore.UserIdFromCookie | go-backend/internal/handlers/handlers.go:64-71 | true iff the cookie value is a key, and then the id is the mapped value |
| Handlers.SessionStore.Login | go-backend/internal/handlers/handlers.go:153-235 | replies as `LoginReply`; on success the table loses every entry of the user, then the old cookie's, and gains the new session; a rejected login leaves the table alone |
| Handlers.SessionStore.Logout | go-backend/internal/handlers/handlers.go:237-242 | removes the cookie's key when there is a cookie |
| Handlers.SessionIdFor | go-backend/internal/handlers/handlers.go:29-31 | the id is the address, a dash, the second-resolution stamp, a dash and the literal 000000000 |
| Handlers.SessionIdSameSecond | go-backend/internal/handlers/handlers.go:29-31 | for one address two ids are equal exactly when the stamps to the second are |
| Handlers.LoginTwiceSameSecond | go-backend/internal/handlers/handlers.go:29-31 | two logins of a user in the same second share one id, so the table holds that one session and both cookies resolve to the user |
| Handlers.LoginTwice | go-backend/internal/handlers/handlers.go:200-220 | two logins of one user into an empty table with distinct session ids: the first id no longer resolves, the second resolves to the user |
| Handlers.SecondLoginEndsFirst | go-backend/internal/handlers/handlers.go:200-220 | a second login of the same user invalidates the first cookie |
| Server.NonBlank | go-backend/cmd/server/main.go:77-83 | at most as many entries as pieces, each non-empty and trimmed |
| Server.NonBlankMembers | go-backend/cmd/server/main.go:77-83 | an origin is an entry iff it is non-empty and some piece trims to it |
| Server.AllowedOrigins | go-backend/cmd/server/main.go:70-90 | never empty; every entry is non-empty and trimmed |
| Server.AllowedOriginsMembers | go-backend/cmd/server/main.go:70-90 | the entries are exactly the non-blank trimmed pieces, or just the default when there are none or no configuration |
| Server.BlankListHasNoEntries | go-backend/cmd/server/main.go:71 | a list that is all white space has no non-blank piece |
| Server.GetAllowedOrigins | go-backend/cmd/server/main.go:70-90 | the loop returns the specified list |
| Server.AnyEntryAdmits | go-backend/cmd/server/main.go:113-127 | true iff some entry is "*", equals the origin, or names localhost/127.0.0.1 while the origin is local |
| Server.IsOriginAllowed | go-backend/cmd/server/main.go:104-134 | false without configuration; a missing origin iff development; otherwise some entry admits it or development admits a local origin |
| Server.DetermineAllowOrigin | go-backend/cmd/server/main.go:136-151 | an allowed origin is echoed; otherwise the first entry ("*" when it is the wildcard) |
| Server.WildcardAdmitsAll | go-backend/cmd/server/main.go:114-116 | a "*" entry admits every non-empty origin |
| Server.DefaultAdmitsLocal | go-backend/cmd/server/main.go:122-124 | with the default list a local origin is admitted in any environment |
| Server.ProductionRefusesUnlisted | go-backend/cmd/server/main.go:104-134 | outside development an unlisted, non-local origin is refused |
| Server.StripPort | go-backend/cmd/server/main.go:256-259 | at most one leading ':' is dropped (the same code is at main.go:275-278) |
| Server.ListenAddressEitherForm | go-backend/cmd/server/main.go:256-261 | ":8080" and "8080" bind the same address |
| Server.StripPortOnce | go-backend/cmd/server/main.go:256-259 | "::8080" keeps one colon |
| Server.FrameReply | go-backend/cmd/server/main.go:462-556 | the first failing step decides: payload format, frame format, base64, empty frame (no reply), no client, unhealthy, processing failed; else DETECTION_RESULT echoing the sequence number |
| Server.Reply | go-backend/cmd/server/main.go:454-559 | PING gets PONG with the client id; FRAME as above; other types get nothing |
| Server.RepliesBounded | go-backend/cmd/server/main.go:439-560 | at most one reply per message; a run of PINGs gets one reply each |
| Server.ReadPump | go-backend/cmd/server/main.go:438-561 | the loop sends exactly the replies to the messages read, in order |

## Left out

- Real sockets, timers, the camera and React rendering. Socket events, timer firings and camera permission are explicit method calls and parameters, in one thread.
- `onerror` (websocket.ts:91-95) only forwards to `trigger('error')`, which is `Trigger`.
- The WebSocket URL built from `window.location` (websocket.ts:20-30) is browser I/O.
- The connect-on-active-session effect (CameraFeed.tsx:181-192) and the handler registration effect (CameraFeed.tsx:143-178) are not modelled. They are calls of `Connect`, `On` and `Off`.
- Camera.StartCamera: a stream obtained while the video element is missing is neither attached nor released. The model records only that no stream is kept.
- `toDataURL(...).split(',')[1]` is not modelled: when there is no comma the result is `undefined`. Encoding is an input of `CaptureEnv`.
- `Date` parsing, `toLocaleString` and date formatting are left out. Times are integer milliseconds and "now" is an input.
- Scores are real numbers, not IEEE doubles (JavaScript), float32 (Go) or C++ `double`. No rounding is modelled.
- Colour thresholds and the score bar are display only.
- Session notes defaulting in `handleCreateSession` (SessionManager.tsx:70) is not modelled; the created session comes from the API as an input. JavaScript `trim` is not modelled either.
- `handleEndSession` (SessionManager.tsx:84-101) and `loadData` (SessionDetailsPage.tsx:24-50) only call the REST API and reload.
- SessionManager.SessionList.DeleteSession: the reload's data is shown and then overwritten by the filter of the stale pre-delete list. The model keeps only the final state.
- ArrayVector.Vector.Add: the C++ `int` overflow of `capacity * 2` is not modelled; sizes are unbounded naturals.
- `operator[]` used as an lvalue, and the `out_of_range` exception, are left out. At returns `None` where the source throws.
- The command loop's `cin` token parsing and the element type character are left out. Commands arrive parsed and the element type is a type parameter.
- The `setprecision(2)` printing of `Vector<double>` is left out.
- The bodies of `hashPassword` and bcrypt's comparison, the SQL queries and `LastInsertId` are results given to the model.
- `generateSessionID`'s clock-based value is the `sessionId` parameter of `SessionStore.Login`. SessionIdFor models how that value is built: its third part is the literal `000000000`, so ids change only once per second. Handlers.LoginTwice assumes two distinct ids, and Handlers.LoginTwiceSameSecond covers two logins in one second.
- WebSocket.WebSocketService.OnOpen: only the current, connecting socket opens. The model tracks one socket at a time. A second socket can exist: an older socket's `onclose` clears `this.ws` whichever socket is current (websocket.ts:69), and `connect()` may already have made a newer one. That older socket's `onopen`, `onmessage` and `onclose` are not modelled.
- WebSocket.WebSocketService.OnClosing is no handler of the source. It is the browser moving the socket to CLOSING, the ready state `connect()` tests (websocket.ts:33).
- Cookies written to the response and the JSON user body are left out; the reply carries only the status and the user id.
- `http.Error` appends a newline to the message; replies keep the message without it.
- Go's regexp works on UTF-8 runes and `validatePassword` walks runes. Every character class involved is ASCII, and a multi-byte rune contains no ASCII byte. So byte-wise checks give the same answers, and the handlers' strings are byte strings. The server's origin list is read as code points instead, since `strings.TrimSpace` strips Unicode white space.
- `GetCurrentUser`, `CreateSession` and the other handlers after `Logout` only query the database.
- `models.WSFrameMessage` is not part of this model. The decoded frame data, including JSON's rejection of an out-of-range `int32`, is the `FramePayload` input.
- `url.Parse` and `Hostname()` are not modelled; their host is an input.
- The `readPump` read deadline, pong handler and close-error logging are left out, and so are `writePump`, the client registry, concurrency, and server start and shutdown.
- Logging (`console.*`, `log.Printf`) is left out everywhere.
