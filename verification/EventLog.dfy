/** The session event log: unique keys, deduplicated finals, a bounded replay window.

`AppendTo` and `Replay` are the log's operations on values; the class keeps the same state in its
fields.  The full history is never stored: the invariant `Logs` says what the stored fields know
about it.
*/
module EventLog {
  import opened Options
  import opened PySlices

  datatype Event = Event(id: string, seqno: nat, revision: int, supersedes: Option<string>,
                         isFinal: bool, dedup: Option<string>, body: string) {
    function Key(): (string, int) {
      (id, revision)
    }
  }

  /** Arguments of one append; `id` is the caller's identifier or the generated one. */
  datatype Request = Request(id: string, revision: int, supersedes: Option<string>,
                             isFinal: bool, dedup: Option<string>, body: string) {
    function Numbered(seqno: nat): Event {
      Event(id, seqno, revision, supersedes, isFinal, dedup, body)
    }

    /** A final event that carries a dedup key. */
    predicate Keyed() {
      isFinal && dedup.Some?
    }
  }

  datatype Log = Log(retention: nat, events: seq<Event>, sequence: nat,
                     keys: set<(string, int)>, finals: map<string, Event>)

  datatype Outcome =
    | Appended(event: Event)
    | Existing(event: Event)
    | BadRevision
    | DuplicateKey

  function NewLog(retention: nat): Log {
    Log(retention, [], 0, {}, map[])
  }

  function AppendTo(log: Log, req: Request): (Log, Outcome) {
    if req.Keyed() && req.dedup.value in log.finals then (log, Existing(log.finals[req.dedup.value]))
    else if req.revision < 1 then (log, BadRevision)
    else
      var event := req.Numbered(log.sequence + 1);
      if event.Key() in log.keys then (log, DuplicateKey)
      else
        (Log(log.retention,
             Keep(log.events + [event], log.retention),
             log.sequence + 1,
             log.keys + {event.Key()},
             if req.Keyed() then log.finals[req.dedup.value := event] else log.finals),
         Appended(event))
  }

  datatype ReplayResult = Events(list: seq<Event>) | NegativeCursor | AheadOfServer | OutsideWindow

  function After(events: seq<Event>, cursor: int): seq<Event> {
    if events == [] then []
    else
      var last := events[|events| - 1];
      After(events[..|events| - 1], cursor) + (if last.seqno > cursor then [last] else [])
  }

  function Replay(log: Log, cursor: int): ReplayResult {
    if cursor < 0 then NegativeCursor
    else if cursor > log.sequence then AheadOfServer
    else if log.events != [] && cursor < log.events[0].seqno - 1 then OutsideWindow
    else Events(After(log.events, cursor))
  }

  /** The final events of a list, in order. */
  function FinalsOf(events: seq<Event>): seq<Event> {
    if events == [] then []
    else
      var last := events[|events| - 1];
      FinalsOf(events[..|events| - 1]) + (if last.isFinal then [last] else [])
  }

  ghost predicate InSequence(events: seq<Event>) {
    forall i, j :: 0 <= i < j < |events| ==> events[i].seqno < events[j].seqno
  }

  lemma {:induction false} FinalsOfIsFilter(events: seq<Event>)
    requires InSequence(events)
    ensures forall e :: e in FinalsOf(events) <==> e in events && e.isFinal
    ensures forall i, j :: 0 <= i < j < |FinalsOf(events)| ==> FinalsOf(events)[i].seqno < FinalsOf(events)[j].seqno
  {
    if events != [] {
      var init, last := events[..|events| - 1], events[|events| - 1];
      FinalsOfIsFilter(init);
      assert events == init + [last];
      forall e | e in FinalsOf(init)
        ensures e.seqno < last.seqno
      {
        var i :| 0 <= i < |init| && init[i] == e;
      }
    }
  }

  /** What a session's result is built from: every retained final once, in the order of the history,
  and nothing else. */
  lemma FinalsAreRetained(log: Log, history: seq<Event>)
    requires Logs(log, history)
    ensures var finals := FinalsOf(log.events);
      && (forall e :: e in finals <==> e in log.events && e.isFinal)
      && (forall e :: e in finals ==> e in history)
      && (forall i, j :: 0 <= i < j < |finals| ==> finals[i].seqno < finals[j].seqno)
  {
    assert InSequence(log.events);
    hide FinalsOf;
    FinalsOfIsFilter(log.events);
  }

  class SessionEventLog {
    const retention: nat
    var events: seq<Event>
    var sequence: nat
    var keys: set<(string, int)>
    var finals: map<string, Event>

    ghost function State(): Log
      reads this
    {
      Log(retention, events, sequence, keys, finals)
    }

    constructor (retention: nat)
      ensures State() == NewLog(retention)
    {
      this.retention := retention;
      events, sequence, keys, finals := [], 0, {}, map[];
    }

    method Append(req: Request) returns (outcome: Outcome)
      modifies this
      ensures (State(), outcome) == AppendTo(old(State()), req)
    {
      if req.isFinal && req.dedup.Some? && req.dedup.value in finals {
        return Existing(finals[req.dedup.value]);
      }
      if req.revision < 1 {
        return BadRevision;
      }
      var event := req.Numbered(sequence + 1);
      var key := event.Key();
      if key in keys {
        return DuplicateKey;
      }
      keys := keys + {key};
      sequence := event.seqno;
      events := events + [event];
      if req.isFinal && req.dedup.Some? {
        finals := finals[req.dedup.value := event];
      }
      if |events| > retention {
        events := Tail(events, retention);
      }
      outcome := Appended(event);
    }

    method ReplayFrom(cursor: int) returns (r: ReplayResult)
      ensures r == Replay(State(), cursor)
    {
      if cursor < 0 {
        return NegativeCursor;
      }
      if cursor > sequence {
        return AheadOfServer;
      }
      if events != [] && cursor < events[0].seqno - 1 {
        return OutsideWindow;
      }
      var list := [];
      for i := 0 to |events|
        invariant list == After(events[..i], cursor)
      {
        assert events[..i + 1][..i] == events[..i];
        if events[i].seqno > cursor {
          list := list + [events[i]];
        }
      }
      assert events[..|events|] == events;
      r := Events(list);
    }

    method FinalEvents() returns (list: seq<Event>)
      ensures list == FinalsOf(events)
    {
      list := [];
      for i := 0 to |events|
        invariant list == FinalsOf(events[..i])
      {
        assert events[..i + 1][..i] == events[..i];
        if events[i].isFinal {
          list := list + [events[i]];
        }
      }
      assert events[..|events|] == events;
    }
  }

  // ---- What the stored fields know about the history --------------------------------------

  ghost predicate Numbered(history: seq<Event>) {
    forall i :: 0 <= i < |history| ==> history[i].seqno == i + 1
  }

  ghost predicate UniqueKeys(history: seq<Event>) {
    forall i, j :: 0 <= i < j < |history| ==> history[i].Key() != history[j].Key()
  }

  /** `e` is a final event under dedup key `k`. */
  predicate FinalFor(e: Event, k: string) {
    e.isFinal && e.dedup == Some(k)
  }

  ghost predicate UniqueFinals(history: seq<Event>) {
    forall i, j, k :: 0 <= i < j < |history| && FinalFor(history[i], k) ==> !FinalFor(history[j], k)
  }

  ghost predicate Logs(log: Log, history: seq<Event>) {
    && Numbered(history) && UniqueKeys(history) && UniqueFinals(history)
    && log.sequence == |history|
    && log.events == Keep(history, log.retention)
    && (forall key :: key in log.keys <==> exists e :: e in history && e.Key() == key)
    && (forall k :: k in log.finals ==> log.finals[k] in history && FinalFor(log.finals[k], k))
    && (forall e, k :: e in history && FinalFor(e, k) ==> k in log.finals)
  }

  function Extend(history: seq<Event>, outcome: Outcome): seq<Event> {
    if outcome.Appended? then history + [outcome.event] else history
  }

  lemma AppendKeepsLogs(log: Log, history: seq<Event>, req: Request)
    requires Logs(log, history)
    ensures var (log', outcome) := AppendTo(log, req);
      Logs(log', Extend(history, outcome)) && log'.retention == log.retention
  {
    var (log', outcome) := AppendTo(log, req);
    if outcome.Appended? {
      var event := outcome.event;
      KeepAfterAppend(history, [event], log.retention);
      HistoryGrows(history, event);
      assert event in history + [event];
      assert forall e :: e in history + [event] <==> e in history || e == event;
    }
  }

  ghost predicate HasFinal(history: seq<Event>, dedup: string) {
    exists e :: e in history && FinalFor(e, dedup)
  }

  ghost predicate HasEventKey(history: seq<Event>, key: (string, int)) {
    exists e :: e in history && e.Key() == key
  }

  /** Which answer an append gets, told by the history alone: the event of the same final if there is one,
  then a refusal of the revision, then of the key, and otherwise the next number. */
  lemma AppendAnswer(log: Log, history: seq<Event>, req: Request)
    requires Logs(log, history)
    ensures var outcome := AppendTo(log, req).1;
      if req.isFinal && req.dedup.Some? && HasFinal(history, req.dedup.value) then
        outcome.Existing? && outcome.event in history && FinalFor(outcome.event, req.dedup.value)
      else if req.revision <= 0 then outcome.BadRevision?
      else if HasEventKey(history, (req.id, req.revision)) then outcome.DuplicateKey?
      else outcome == Appended(Event(req.id, |history| + 1, req.revision, req.supersedes, req.isFinal, req.dedup,
                                     req.body))
  {
    hide Keep;
  }

  lemma HistoryGrows(history: seq<Event>, event: Event)
    requires Numbered(history) && UniqueKeys(history) && UniqueFinals(history)
    requires event.seqno == |history| + 1
    requires forall e :: e in history ==> e.Key() != event.Key()
    requires forall e, k :: e in history && FinalFor(e, k) ==> !FinalFor(event, k)
    ensures Numbered(history + [event]) && UniqueKeys(history + [event]) && UniqueFinals(history + [event])
  {
    assert forall i :: 0 <= i < |history| ==> history[i] in history;
  }

  /** Serve a list of append requests; the second component is the full history. */
  function Serve(retention: nat, reqs: seq<Request>): (Log, seq<Event>) {
    if reqs == [] then (NewLog(retention), [])
    else
      var (log, history) := Serve(retention, reqs[..|reqs| - 1]);
      var (log', outcome) := AppendTo(log, reqs[|reqs| - 1]);
      (log', Extend(history, outcome))
  }

  /** In every run the log is the last `retention` events of a history numbered 1, 2, 3, ..., with
  no repeated `(id, revision)` and no repeated final per dedup key. */
  lemma {:induction false} ServeKeepsLogs(retention: nat, reqs: seq<Request>)
    ensures var (log, history) := Serve(retention, reqs);
      Logs(log, history) && log.retention == retention
  {
    if reqs != [] {
      var (log, history) := Serve(retention, reqs[..|reqs| - 1]);
      ServeKeepsLogs(retention, reqs[..|reqs| - 1]);
      AppendKeepsLogs(log, history, reqs[|reqs| - 1]);
    }
  }

  // ---- Replay -----------------------------------------------------------------------------

  /** The oldest cursor that can still be served. */
  function WindowStart(n: nat, retention: nat): nat {
    if retention == 0 || n <= retention then 0 else n - retention
  }

  lemma {:induction false} AfterSuffix(history: seq<Event>, from: nat, cursor: nat)
    requires Numbered(history) && from <= cursor <= |history|
    ensures After(history[from..], cursor) == history[cursor..]
  {
    if cursor == |history| {
      NothingAfter(history[from..], cursor);
    } else {
      var init, last := history[..|history| - 1], history[|history| - 1];
      AfterSuffix(init, from, cursor);
      SuffixSnoc(init, last, from);
      SuffixSnoc(init, last, cursor);
      assert history == init + [last];
      assert last.seqno > cursor;
      AfterSnoc(init[from..], last, cursor);
    }
  }

  lemma SuffixSnoc(init: seq<Event>, last: Event, from: nat)
    requires from <= |init|
    ensures (init + [last])[from..] == init[from..] + [last]
  {
  }

  lemma AfterSnoc(init: seq<Event>, last: Event, cursor: int)
    ensures After(init + [last], cursor) == After(init, cursor) + (if last.seqno > cursor then [last] else [])
  {
    assert (init + [last])[..|init|] == init;
  }

  lemma {:induction false} NothingAfter(events: seq<Event>, cursor: int)
    requires forall e :: e in events ==> e.seqno <= cursor
    ensures After(events, cursor) == []
  {
    if events != [] {
      NothingAfter(events[..|events| - 1], cursor);
    }
  }

  /** Replay returns exactly the history after the cursor, or raises exactly outside the window. */
  lemma ReplayIsExact(log: Log, history: seq<Event>, cursor: int)
    requires Logs(log, history)
    ensures Replay(log, cursor) ==
      if cursor < 0 then NegativeCursor
      else if cursor > |history| then AheadOfServer
      else if cursor < WindowStart(|history|, log.retention) then OutsideWindow
      else Events(history[cursor..])
  {
    var from := WindowStart(|history|, log.retention);
    assert log.events == history[from..];
    if from <= cursor <= |history| {
      AfterSuffix(history, from, cursor);
    }
  }

  /** Appending the same final twice returns the first event and changes nothing. */
  lemma SecondFinalChangesNothing(log: Log, history: seq<Event>, req: Request, again: Request)
    requires Logs(log, history) && req.Keyed() && again.Keyed() && again.dedup == req.dedup
    requires var outcome := AppendTo(log, req).1; outcome.Appended? || outcome.Existing?
    ensures var (log', outcome) := AppendTo(log, req);
      AppendTo(log', again) == (log', Existing(outcome.event))
  {
  }

  // ---- A client that disconnects and resumes ----------------------------------------------

  datatype Client = Client(received: seq<Event>, cursor: nat)

  datatype Action =
    | Publish(req: Request)
    | Resume(delivered: nat)  // the connection drops after this many events

  datatype World = World(log: Log, history: seq<Event>, client: Client)

  function Act(w: World, a: Action): World {
    match a
    case Publish(req) =>
      var (log, outcome) := AppendTo(w.log, req);
      w.(log := log, history := Extend(w.history, outcome))
    case Resume(delivered) =>
      match Replay(w.log, w.client.cursor)
      case Events(list) =>
        var got := list[..if delivered < |list| then delivered else |list|];
        if got == [] then w
        else w.(client := Client(w.client.received + got, got[|got| - 1].seqno))
      case _ => w
  }

  function ActAll(w: World, actions: seq<Action>): World {
    if actions == [] then w else Act(ActAll(w, actions[..|actions| - 1]), actions[|actions| - 1])
  }

  /** The client has the history up to its cursor: no gap, no duplicate. */
  ghost predicate InStep(w: World) {
    && Logs(w.log, w.history)
    && w.client.cursor <= |w.history|
    && w.client.received == w.history[..w.client.cursor]
  }

  lemma ActKeepsInStep(w: World, a: Action)
    requires InStep(w)
    ensures InStep(Act(w, a)) && Act(w, a).log.retention == w.log.retention
    ensures w.history <= Act(w, a).history && w.client.cursor <= Act(w, a).client.cursor
  {
    hide Logs, AppendTo, After;
    match a
    case Publish(req) =>
      AppendKeepsLogs(w.log, w.history, req);
    case Resume(delivered) =>
      ReplayIsExact(w.log, w.history, w.client.cursor);
      Delivery(w.history, w.client.cursor, delivered);
      assert Numbered(w.history) by {
        LogsNumbered(w.log, w.history);
      }
  }

  lemma LogsNumbered(log: Log, history: seq<Event>)
    requires Logs(log, history)
    ensures Numbered(history)
  {
  }

  /** The first `n` events after the cursor extend the prefix the client holds. */
  lemma Delivery(history: seq<Event>, cursor: nat, n: nat)
    requires cursor <= |history|
    ensures var list := history[cursor..];
      var k := if n < |list| then n else |list|;
      && history[..cursor] + list[..k] == history[..cursor + k]
      && (k > 0 ==> list[..k][k - 1] == history[cursor + k - 1])
  {
  }

  /** However often the client disconnects and resumes, it holds a prefix of the history. */
  lemma {:induction false} ClientNeverLosesOrRepeats(retention: nat, actions: seq<Action>)
    ensures var w := ActAll(World(NewLog(retention), [], Client([], 0)), actions);
      InStep(w) && w.log.retention == retention
  {
    if actions != [] {
      var init := actions[..|actions| - 1];
      ClientNeverLosesOrRepeats(retention, init);
      ActKeepsInStep(ActAll(World(NewLog(retention), [], Client([], 0)), init), actions[|actions| - 1]);
    }
  }

  /** One undisturbed resume catches up, exactly when the cursor is still inside the window. */
  lemma ResumeCatchesUpIff(w: World, delivered: nat)
    requires InStep(w) && delivered >= |w.history|
    ensures Act(w, Resume(delivered)).client.received == w.history
      <==> w.client.cursor >= WindowStart(|w.history|, w.log.retention)
  {
    var c := w.client.cursor;
    ReplayIsExact(w.log, w.history, c);
    Delivery(w.history, c, delivered);
    assert w.history[..|w.history|] == w.history;
    assert |w.client.received| == c;
  }
}

/** The in-memory event store: one bounded list per session. */
module EventStore {
  import opened EventLog

  datatype Store = Store(retention: nat, events: map<string, seq<Event>>, keys: set<(string, string, int)>) {
    function Of(session: string): seq<Event> {
      if session in events then events[session] else []
    }
  }

  datatype StoreOutcome = Stored | NotMonotonic | RepeatedKey

  /** `del events[: len(events) - retention]`. */
  function LastN<T>(s: seq<T>, n: nat): seq<T> {
    if |s| > n then s[|s| - n..] else s
  }

  function Put(store: Store, session: string, e: Event): (Store, StoreOutcome) {
    var events := store.Of(session);
    var key := (session, e.id, e.revision);
    if events != [] && e.seqno <= events[|events| - 1].seqno then (store, NotMonotonic)
    else if key in store.keys then (store, RepeatedKey)
    else
      (Store(store.retention,
             store.events[session := LastN(events + [e], store.retention)],
             store.keys + {key}),
       Stored)
  }

  function ReplayStored(store: Store, session: string, cursor: int): ReplayResult {
    var events := store.Of(session);
    if events != [] && cursor < events[0].seqno - 1 then OutsideWindow
    else Events(After(events, cursor))
  }

  class InMemoryEventStore {
    const retention: nat
    var events: map<string, seq<Event>>
    var keys: set<(string, string, int)>

    ghost function State(): Store
      reads this
    {
      Store(retention, events, keys)
    }

    constructor (retention: nat)
      ensures State() == Store(retention, map[], {})
    {
      this.retention := retention;
      events, keys := map[], {};
    }

    /** A refused event still leaves an empty list behind for a session that had none. */
    method Append(session: string, e: Event) returns (outcome: StoreOutcome)
      modifies this
      ensures outcome == Put(old(State()), session, e).1
      ensures outcome.Stored? ==> State() == Put(old(State()), session, e).0
      ensures !outcome.Stored? ==>
        State() == old(State()).(events := old(events)[session := old(State()).Of(session)])
    {
      if session !in events {
        events := events[session := []];
      }
      var list := events[session];
      if list != [] && e.seqno <= list[|list| - 1].seqno {
        return NotMonotonic;
      }
      var key := (session, e.id, e.revision);
      if key in keys {
        return RepeatedKey;
      }
      keys := keys + {key};
      list := list + [e];
      if |list| > retention {
        list := list[|list| - retention..];
      }
      events := events[session := list];
      outcome := Stored;
    }
  }

  /** Store a whole history, in order. */
  function PutAll(store: Store, session: string, history: seq<Event>): Store {
    if history == [] then store
    else Put(PutAll(store, session, history[..|history| - 1]), session, history[|history| - 1]).0
  }

  /** The session's list is the end of the history, and only the history has taken its keys. */
  ghost predicate Holds(store: Store, session: string, history: seq<Event>) {
    && store.Of(session) == LastN(history, store.retention)
    && forall k :: k in store.keys && k.0 == session ==> exists e :: e in history && e.Key() == (k.1, k.2)
  }

  ghost predicate SameElsewhere(a: Store, b: Store, session: string) {
    a.retention == b.retention && forall other :: other != session ==> a.Of(other) == b.Of(other)
  }

  lemma PutFollows(store: Store, session: string, init: seq<Event>, e: Event)
    requires Holds(store, session, init)
    requires Numbered(init + [e]) && UniqueKeys(init + [e])
    ensures Put(store, session, e).1.Stored?
    ensures Holds(Put(store, session, e).0, session, init + [e])
    ensures SameElsewhere(Put(store, session, e).0, store, session)
  {
    var history := init + [e];
    assert history[|init|] == e && e in history;
    assert forall i :: 0 <= i < |init| ==> history[i] == init[i];
    assert forall x :: x in init ==> x in history && x.Key() != e.Key();
    LastNAppend(init, e, store.retention);
  }

  /** The log's history is accepted event by event and cut to the same window. */
  lemma {:induction false} StoreFollowsHistory(store: Store, session: string, history: seq<Event>)
    requires Numbered(history) && UniqueKeys(history) && Holds(store, session, [])
    ensures Holds(PutAll(store, session, history), session, history)
    ensures SameElsewhere(PutAll(store, session, history), store, session)
  {
    if history != [] {
      var init, e := history[..|history| - 1], history[|history| - 1];
      assert history == init + [e];
      StoreFollowsHistory(store, session, init);
      PutFollows(PutAll(store, session, init), session, init, e);
    }
  }

  // ---- Any appends ------------------------------------------------------------------------

  type Accepted = seq<(string, Event)>

  /** The accepted events of one session, in order. */
  function Of(accepted: Accepted, session: string): seq<Event> {
    if accepted == [] then []
    else
      var last := accepted[|accepted| - 1];
      Of(accepted[..|accepted| - 1], session) + (if last.0 == session then [last.1] else [])
  }

  ghost predicate HasTaken(accepted: Accepted, key: (string, string, int)) {
    exists a :: a in accepted && (a.0, a.1.id, a.1.revision) == key
  }

  /** The store holds the last accepted events of every session. */
  ghost predicate Windows(store: Store, accepted: Accepted) {
    forall session :: store.Of(session) == LastN(Of(accepted, session), store.retention)
  }

  ghost predicate KeysTaken(store: Store, accepted: Accepted) {
    forall key :: key in store.keys <==> HasTaken(accepted, key)
  }

  ghost predicate TakenOnce(accepted: Accepted) {
    forall i, j :: 0 <= i < j < |accepted| ==>
      accepted[i].0 != accepted[j].0 || accepted[i].1.Key() != accepted[j].1.Key()
  }

  ghost predicate Increasing(accepted: Accepted) {
    forall session :: InSequence(Of(accepted, session))
  }

  /** The store holds the last accepted events of every session and the keys of all of them; a key was
  accepted once, and with a non-empty window the numbers of a session increase. */
  ghost predicate Keeps(store: Store, accepted: Accepted) {
    && Windows(store, accepted) && KeysTaken(store, accepted) && TakenOnce(accepted)
    && (store.retention > 0 ==> Increasing(accepted))
  }

  function Take(accepted: Accepted, session: string, e: Event, outcome: StoreOutcome): Accepted {
    if outcome.Stored? then accepted + [(session, e)] else accepted
  }

  /** An event is refused exactly when its number does not exceed the session's last, or its key was taken
  in that session; otherwise it is stored. */
  lemma StoreAnswer(store: Store, accepted: Accepted, session: string, e: Event)
    requires Keeps(store, accepted)
    ensures var mine := Of(accepted, session);
      Put(store, session, e).1
      == if store.retention > 0 && mine != [] && e.seqno <= mine[|mine| - 1].seqno then NotMonotonic
         else if HasTaken(accepted, (session, e.id, e.revision)) then RepeatedKey
         else Stored
  {
    hide *;
    WindowAndKeys(store, accepted, session);
    PutAnswer(store, session, Of(accepted, session), e);
  }

  lemma WindowAndKeys(store: Store, accepted: Accepted, session: string)
    requires Keeps(store, accepted)
    ensures store.Of(session) == LastN(Of(accepted, session), store.retention)
    ensures forall key :: key in store.keys <==> HasTaken(accepted, key)
  {
    hide Of, LastN, HasTaken, TakenOnce, Increasing;
  }

  lemma PutAnswer(store: Store, session: string, mine: seq<Event>, e: Event)
    requires store.Of(session) == LastN(mine, store.retention)
    ensures Put(store, session, e).1
         == if store.retention > 0 && mine != [] && e.seqno <= mine[|mine| - 1].seqno then NotMonotonic
            else if (session, e.id, e.revision) in store.keys then RepeatedKey
            else Stored
  {
  }

  lemma OfSnoc(accepted: Accepted, session: string, e: Event, other: string)
    ensures Of(accepted + [(session, e)], other) == Of(accepted, other) + (if other == session then [e] else [])
  {
    assert (accepted + [(session, e)])[..|accepted|] == accepted;
  }

  lemma TakenSnoc(accepted: Accepted, session: string, e: Event, key: (string, string, int))
    ensures HasTaken(accepted + [(session, e)], key) <==>
      HasTaken(accepted, key) || key == (session, e.id, e.revision)
  {
    var all := accepted + [(session, e)];
    assert all[|accepted|] == (session, e);
    assert forall a :: a in all <==> a in accepted || a == (session, e);
  }

  lemma InSequenceSnoc(mine: seq<Event>, e: Event)
    requires InSequence(mine) && (mine != [] ==> mine[|mine| - 1].seqno < e.seqno)
    ensures InSequence(mine + [e])
  {
  }

  lemma StoredIs(store: Store, session: string, e: Event)
    requires Put(store, session, e).1.Stored?
    ensures var store' := Put(store, session, e).0;
      && store'.retention == store.retention && store'.keys == store.keys + {(session, e.id, e.revision)}
      && store'.Of(session) == LastN(store.Of(session) + [e], store.retention)
      && forall other :: other != session ==> store'.Of(other) == store.Of(other)
  {
  }

  lemma StoredWindows(store: Store, accepted: Accepted, session: string, e: Event)
    requires Windows(store, accepted) && Put(store, session, e).1.Stored?
    ensures Windows(Put(store, session, e).0, accepted + [(session, e)])
  {
    var store' := Put(store, session, e).0;
    StoredIs(store, session, e);
    hide Put, Of, LastN;
    forall other
      ensures store'.Of(other) == LastN(Of(accepted + [(session, e)], other), store'.retention)
    {
      OfSnoc(accepted, session, e, other);
      LastNAppend(Of(accepted, session), e, store.retention);
      assert Of(accepted, other) + [] == Of(accepted, other);
    }
  }

  lemma StoredKeys(store: Store, accepted: Accepted, session: string, e: Event)
    requires KeysTaken(store, accepted) && Put(store, session, e).1.Stored?
    ensures KeysTaken(Put(store, session, e).0, accepted + [(session, e)])
  {
    var store' := Put(store, session, e).0;
    StoredIs(store, session, e);
    hide Put, HasTaken;
    forall key
      ensures key in store'.keys <==> HasTaken(accepted + [(session, e)], key)
    {
      TakenSnoc(accepted, session, e, key);
    }
  }

  lemma TakenAt(accepted: Accepted, i: nat)
    requires i < |accepted|
    ensures HasTaken(accepted, (accepted[i].0, accepted[i].1.id, accepted[i].1.revision))
  {
    assert accepted[i] in accepted;
  }

  lemma StoredOnce(accepted: Accepted, session: string, e: Event)
    requires TakenOnce(accepted) && !HasTaken(accepted, (session, e.id, e.revision))
    ensures TakenOnce(accepted + [(session, e)])
  {
    forall i | 0 <= i < |accepted|
      ensures accepted[i].0 != session || accepted[i].1.Key() != e.Key()
    {
      TakenAt(accepted, i);
    }
  }

  lemma StoredIncreases(accepted: Accepted, session: string, e: Event)
    requires Increasing(accepted)
    requires var mine := Of(accepted, session); mine != [] ==> mine[|mine| - 1].seqno < e.seqno
    ensures Increasing(accepted + [(session, e)])
  {
    hide Of, InSequence;
    forall other
      ensures InSequence(Of(accepted + [(session, e)], other))
    {
      OfSnoc(accepted, session, e, other);
      InSequenceSnoc(Of(accepted, session), e);
      assert Of(accepted, other) + [] == Of(accepted, other);
    }
  }

  lemma PutKeeps(store: Store, accepted: Accepted, session: string, e: Event)
    requires Keeps(store, accepted)
    ensures var r := Put(store, session, e);
      r.0.retention == store.retention && Keeps(r.0, Take(accepted, session, e, r.1))
  {
    StoreAnswer(store, accepted, session, e);
    hide Put, Of, Windows, KeysTaken, TakenOnce, Increasing, HasTaken;
    if Put(store, session, e).1.Stored? {
      StoredIs(store, session, e);
      StoredWindows(store, accepted, session, e);
      StoredKeys(store, accepted, session, e);
      StoredOnce(accepted, session, e);
      if store.retention > 0 {
        StoredIncreases(accepted, session, e);
      }
    } else {
      RefusedIs(store, session, e);
    }
  }

  lemma RefusedIs(store: Store, session: string, e: Event)
    ensures !Put(store, session, e).1.Stored? ==> Put(store, session, e).0 == store
  {
  }

  /** Serve any appends to a new store; the second component is what was accepted. */
  function ServeAll(retention: nat, calls: seq<(string, Event)>): (Store, Accepted) {
    if calls == [] then (Store(retention, map[], {}), [])
    else
      var (store, accepted) := ServeAll(retention, calls[..|calls| - 1]);
      var (session, e) := calls[|calls| - 1];
      var (store', outcome) := Put(store, session, e);
      (store', Take(accepted, session, e, outcome))
  }

  /** After any appends the store holds the end of what it accepted of every session. */
  lemma {:induction false} ServeAllKeeps(retention: nat, calls: seq<(string, Event)>)
    ensures ServeAll(retention, calls).0.retention == retention
    ensures Keeps(ServeAll(retention, calls).0, ServeAll(retention, calls).1)
  {
    if calls != [] {
      ServeAllKeeps(retention, calls[..|calls| - 1]);
      var (store, accepted) := ServeAll(retention, calls[..|calls| - 1]);
      PutKeeps(store, accepted, calls[|calls| - 1].0, calls[|calls| - 1].1);
      hide Keeps, Put;
    }
  }

  lemma LastNAppend(s: seq<Event>, e: Event, n: nat)
    ensures LastN(LastN(s, n) + [e], n) == LastN(s + [e], n)
  {
    if |s| > n {
      assert s + [e] == s[..|s| - n] + (s[|s| - n..] + [e]);
    }
  }

  /** Log and store answer every cursor up to the head alike, given the same non-zero retention. */
  lemma StoreAgreesWithLog(log: Log, history: seq<Event>, store: Store, session: string, cursor: nat)
    requires Logs(log, history) && log.retention >= 1 && cursor <= |history|
    requires store.retention == log.retention
    requires Holds(store, session, [])
    ensures ReplayStored(PutAll(store, session, history), session, cursor) == Replay(log, cursor)
  {
    StoreFollowsHistory(store, session, history);
  }

  /** With retention 0 the log keeps everything and the store nothing, so they agree on every cursor up
  to the head exactly when the retention is not zero or nothing has happened. */
  lemma StoreAgreesIff(log: Log, history: seq<Event>, store: Store, session: string)
    requires Logs(log, history) && store.retention == log.retention && Holds(store, session, [])
    ensures (forall cursor: nat :: cursor <= |history| ==>
               ReplayStored(PutAll(store, session, history), session, cursor) == Replay(log, cursor))
       <==> log.retention >= 1 || history == []
  {
    if log.retention >= 1 {
      forall cursor: nat | cursor <= |history|
        ensures ReplayStored(PutAll(store, session, history), session, cursor) == Replay(log, cursor)
      {
        StoreAgreesWithLog(log, history, store, session, cursor);
      }
    } else {
      StoreFollowsHistory(store, session, history);
      forall cursor: nat | cursor <= |history|
        ensures ReplayStored(PutAll(store, session, history), session, cursor) == Events([])
        ensures Replay(log, cursor) == Events(history[cursor..])
      {
        NothingStored(PutAll(store, session, history), session, history, cursor);
        ReplayIsExact(log, history, cursor);
      }
      assert history[0..] == history;
    }
  }

  lemma NothingStored(store: Store, session: string, history: seq<Event>, cursor: nat)
    requires Holds(store, session, history) && store.retention == 0
    ensures ReplayStored(store, session, cursor) == Events([])
  {
    assert store.Of(session) == [];
  }
}
