/** Publishing events one after the other: what is refused, what is deduplicated, what gets an event. */
module Publication {
  import opened DedupKeys
  import opened EventLog
  import opened Finals
  import opened Options
  import Timeline

  /** Publish the requests in order. */
  function PublishAll(log: Log, reqs: seq<Request>): Log {
    if reqs == [] then log else AppendTo(PublishAll(log, reqs[..|reqs| - 1]), reqs[|reqs| - 1]).0
  }

  function Published(log: Log, history: seq<Event>, reqs: seq<Request>): seq<Event> {
    if reqs == [] then history
    else
      var init := reqs[..|reqs| - 1];
      Extend(Published(log, history, init), AppendTo(PublishAll(log, init), reqs[|reqs| - 1]).1)
  }

  function OutcomeAt(log: Log, reqs: seq<Request>, k: nat): Outcome
    requires k < |reqs|
  {
    AppendTo(PublishAll(log, reqs[..k]), reqs[k]).1
  }

  /** The `k`-th request gets an event of its own. */
  predicate AppendedAt(log: Log, reqs: seq<Request>, k: nat)
    requires k < |reqs|
  {
    OutcomeAt(log, reqs, k).Appended?
  }

  ghost predicate NoneRefused(log: Log, reqs: seq<Request>) {
    forall k :: 0 <= k < |reqs| ==> OutcomeAt(log, reqs, k).Appended? || OutcomeAt(log, reqs, k).Existing?
  }

  lemma {:induction false} PublishConcat(log: Log, a: seq<Request>, b: seq<Request>)
    ensures PublishAll(log, a + b) == PublishAll(PublishAll(log, a), b)
  {
    hide AppendTo;
    if b == [] {
      assert a + b == a;
    } else {
      var all := a + b;
      assert all[..|all| - 1] == a + b[..|b| - 1];
      PublishConcat(log, a, b[..|b| - 1]);
    }
  }

  lemma {:induction false} PublishKeepsLogs(log: Log, history: seq<Event>, reqs: seq<Request>)
    requires Logs(log, history)
    ensures Logs(PublishAll(log, reqs), Published(log, history, reqs))
    ensures history <= Published(log, history, reqs)
  {
    hide Logs, AppendTo;
    if reqs != [] {
      var init := reqs[..|reqs| - 1];
      PublishKeepsLogs(log, history, init);
      AppendKeepsLogs(PublishAll(log, init), Published(log, history, init), reqs[|reqs| - 1]);
    }
  }

  // ---- Fresh identifiers ------------------------------------------------------------------

  ghost predicate Unused(log: Log, id: string) {
    forall key :: key in log.keys ==> key.0 != id
  }

  /** The requests carry different identifiers the log has not seen, and a valid revision. */
  ghost predicate FreshRequests(log: Log, reqs: seq<Request>) {
    && (forall i :: 0 <= i < |reqs| ==> Unused(log, reqs[i].id) && reqs[i].revision >= 1)
    && (forall i, j :: 0 <= i < j < |reqs| ==> reqs[i].id != reqs[j].id)
  }

  lemma AppendKeys(log: Log, req: Request, id: string)
    requires Unused(log, id) && id != req.id
    ensures Unused(AppendTo(log, req).0, id)
  {
  }

  lemma {:induction false} PublishKeys(log: Log, reqs: seq<Request>, id: string)
    requires Unused(log, id) && forall k :: 0 <= k < |reqs| ==> reqs[k].id != id
    ensures Unused(PublishAll(log, reqs), id)
  {
    hide AppendTo, Unused;
    if reqs != [] {
      PublishKeys(log, reqs[..|reqs| - 1], id);
      AppendKeys(PublishAll(log, reqs[..|reqs| - 1]), reqs[|reqs| - 1], id);
    }
  }

  lemma UnusedAccepted(log: Log, req: Request)
    requires Unused(log, req.id) && req.revision >= 1
    ensures AppendTo(log, req).1.Appended? || AppendTo(log, req).1.Existing?
    ensures AppendTo(log, req).1.Appended? <==> !req.Keyed() || req.dedup.value !in log.finals
  {
  }

  /** Under fresh identifiers nothing is refused. */
  lemma FreshAccepted(log: Log, reqs: seq<Request>)
    requires FreshRequests(log, reqs)
    ensures NoneRefused(log, reqs)
  {
    hide AppendTo, Unused, PublishAll;
    forall k | 0 <= k < |reqs|
      ensures OutcomeAt(log, reqs, k).Appended? || OutcomeAt(log, reqs, k).Existing?
    {
      PublishKeys(log, reqs[..k], reqs[k].id);
      UnusedAccepted(PublishAll(log, reqs[..k]), reqs[k]);
    }
  }

  // ---- Deduplication ----------------------------------------------------------------------

  /** A keyed request that is not refused leaves its key among the finals. */
  ghost predicate Settled(log: Log, req: Request) {
    req.Keyed() && req.dedup.value in log.finals
  }

  lemma SettledStays(log: Log, req: Request, other: Request)
    requires Settled(log, req)
    ensures Settled(AppendTo(log, other).0, req)
  {
  }

  lemma AppendSettles(log: Log, req: Request)
    requires req.Keyed() && (AppendTo(log, req).1.Appended? || AppendTo(log, req).1.Existing?)
    ensures Settled(AppendTo(log, req).0, req)
  {
  }

  lemma NoneRefusedInit(log: Log, reqs: seq<Request>)
    requires NoneRefused(log, reqs) && reqs != []
    ensures NoneRefused(log, reqs[..|reqs| - 1])
    ensures var outcome := AppendTo(PublishAll(log, reqs[..|reqs| - 1]), reqs[|reqs| - 1]).1;
      outcome.Appended? || outcome.Existing?
  {
    hide AppendTo, PublishAll;
    var init := reqs[..|reqs| - 1];
    assert forall k :: 0 <= k < |init| ==> init[..k] == reqs[..k] && init[k] == reqs[k];
    assert OutcomeAt(log, reqs, |reqs| - 1).Appended? || OutcomeAt(log, reqs, |reqs| - 1).Existing?;
    forall k | 0 <= k < |init|
      ensures OutcomeAt(log, init, k) == OutcomeAt(log, reqs, k)
    {
    }
  }

  lemma {:induction false} PublishSettles(log: Log, reqs: seq<Request>)
    requires NoneRefused(log, reqs) && forall k :: 0 <= k < |reqs| ==> reqs[k].Keyed()
    ensures forall k :: 0 <= k < |reqs| ==> Settled(PublishAll(log, reqs), reqs[k])
  {
    hide AppendTo, Settled, OutcomeAt;
    if reqs != [] {
      var init, last := reqs[..|reqs| - 1], reqs[|reqs| - 1];
      NoneRefusedInit(log, reqs);
      PublishSettles(log, init);
      forall k | 0 <= k < |reqs|
        ensures Settled(PublishAll(log, reqs), reqs[k])
      {
        if k < |init| {
          assert init[k] == reqs[k];
          SettledStays(PublishAll(log, init), reqs[k], last);
        } else {
          AppendSettles(PublishAll(log, init), last);
        }
      }
    }
  }

  lemma SettledUnchanged(log: Log, req: Request)
    requires Settled(log, req)
    ensures AppendTo(log, req).0 == log
  {
  }

  lemma {:induction false} AllSettledUnchanged(log: Log, again: seq<Request>)
    requires forall k :: 0 <= k < |again| ==> Settled(log, again[k])
    ensures PublishAll(log, again) == log
  {
    hide Settled, AppendTo;
    if again != [] {
      AllSettledUnchanged(log, again[..|again| - 1]);
      SettledUnchanged(log, again[|again| - 1]);
    }
  }

  /** One of the requests carries the same dedup key. */
  ghost predicate KeyAmong(req: Request, reqs: seq<Request>) {
    exists k :: 0 <= k < |reqs| && reqs[k].dedup == req.dedup
  }

  /** Running the publication again, with other identifiers, supersedes and bodies, in any order and
  any number, leaves the log as it is. */
  lemma PublishAgain(log: Log, reqs: seq<Request>, again: seq<Request>)
    requires NoneRefused(log, reqs) && (forall k :: 0 <= k < |reqs| ==> reqs[k].Keyed())
    requires forall i :: 0 <= i < |again| ==> again[i].Keyed() && KeyAmong(again[i], reqs)
    ensures PublishAll(PublishAll(log, reqs), again) == PublishAll(log, reqs)
  {
    PublishSettles(log, reqs);
    var done := PublishAll(log, reqs);
    forall i | 0 <= i < |again|
      ensures Settled(done, again[i])
    {
      assert KeyAmong(again[i], reqs);
      var k :| 0 <= k < |reqs| && reqs[k].dedup == again[i].dedup;
      assert Settled(done, reqs[k]);
    }
    hide Settled, PublishAll, NoneRefused;
    AllSettledUnchanged(done, again);
  }

  lemma FinalsAfter(log: Log, req: Request, key: string)
    requires AppendTo(log, req).1.Appended? || AppendTo(log, req).1.Existing?
    ensures key in AppendTo(log, req).0.finals <==> key in log.finals || HasKey(req, key)
  {
  }

  predicate HasKey(req: Request, key: string) {
    req.isFinal && req.dedup == Some(key)
  }

  /** The keys of published finals: those there were, and those of the requests. */
  lemma {:induction false} PublishedKeys(log: Log, reqs: seq<Request>, key: string)
    requires NoneRefused(log, reqs)
    ensures key in PublishAll(log, reqs).finals
       <==> key in log.finals || exists k :: 0 <= k < |reqs| && HasKey(reqs[k], key)
  {
    hide AppendTo, OutcomeAt;
    if reqs != [] {
      var init, last := reqs[..|reqs| - 1], reqs[|reqs| - 1];
      NoneRefusedInit(log, reqs);
      PublishedKeys(log, init, key);
      FinalsAfter(PublishAll(log, init), last, key);
      hide PublishAll, NoneRefused, HasKey;
      assert forall k :: 0 <= k < |init| ==> init[k] == reqs[k];
    }
  }

  lemma NoneRefusedPrefix(log: Log, reqs: seq<Request>, n: nat)
    requires NoneRefused(log, reqs) && n <= |reqs|
    ensures NoneRefused(log, reqs[..n])
  {
    hide AppendTo, PublishAll;
    forall k | 0 <= k < n
      ensures OutcomeAt(log, reqs[..n], k) == OutcomeAt(log, reqs, k)
    {
      assert reqs[..n][..k] == reqs[..k];
    }
    assert forall k :: 0 <= k < n ==> OutcomeAt(log, reqs, k).Appended? || OutcomeAt(log, reqs, k).Existing?;
  }

  /** A request gets an event exactly when it is not a keyed final, or its key is new: not published
  before and not carried by an earlier request. */
  lemma AppendedIff(log: Log, reqs: seq<Request>, k: nat)
    requires FreshRequests(log, reqs) && k < |reqs|
    ensures AppendedAt(log, reqs, k)
       <==> (reqs[k].isFinal && reqs[k].dedup.Some? ==>
               && reqs[k].dedup.value !in log.finals
               && forall j :: 0 <= j < k ==> !HasKey(reqs[j], reqs[k].dedup.value))
  {
    hide AppendTo, PublishAll, NoneRefused, Unused;
    FreshAccepted(log, reqs);
    NoneRefusedPrefix(log, reqs, k);
    PublishKeys(log, reqs[..k], reqs[k].id);
    UnusedAccepted(PublishAll(log, reqs[..k]), reqs[k]);
    if reqs[k].dedup.Some? {
      PublishedKeys(log, reqs[..k], reqs[k].dedup.value);
    }
    hide HasKey;
    assert forall j :: 0 <= j < k ==> reqs[..k][j] == reqs[j];
  }

  // ---- Which request an event comes from --------------------------------------------------

  /** The event carries what the request asked for. */
  predicate Carries(e: Event, req: Request) {
    e.id == req.id && e.body == req.body && e.supersedes == req.supersedes && e.dedup == req.dedup
    && e.isFinal == req.isFinal && e.revision == req.revision
  }

  /** The events from `from` on are those of the appended requests, in order. */
  ghost predicate FromRequests(log: Log, history: seq<Event>, from: nat, reqs: seq<Request>, src: seq<nat>) {
    && |history| == from + |src|
    && (forall i :: 0 <= i < |src| ==> src[i] < |reqs| && AppendedAt(log, reqs, src[i]))
    && (forall i :: 0 <= i < |src| ==> Carries(history[from + i], reqs[src[i]]))
    && (forall i, j :: 0 <= i < j < |src| ==> src[i] < src[j])
    && (forall k: nat :: k < |reqs| && AppendedAt(log, reqs, k) ==> k in src)
  }

  lemma AppendedPrefix(log: Log, init: seq<Request>, last: Request, k: nat)
    requires k < |init|
    ensures AppendedAt(log, init + [last], k) <==> AppendedAt(log, init, k)
  {
    hide AppendTo, PublishAll;
    assert (init + [last])[..k] == init[..k];
  }

  lemma AppendedLast(log: Log, init: seq<Request>, last: Request)
    ensures AppendedAt(log, init + [last], |init|) <==> AppendTo(PublishAll(log, init), last).1.Appended?
  {
    hide AppendTo, PublishAll;
    assert (init + [last])[..|init|] == init;
  }

  lemma AppendedCarries(log: Log, req: Request)
    ensures var outcome := AppendTo(log, req).1; outcome.Appended? ==> Carries(outcome.event, req)
  {
  }

  lemma FromRequestsNext(log: Log, history: seq<Event>, from: nat, init: seq<Request>, src: seq<nat>, last: Request)
    requires FromRequests(log, history, from, init, src)
    ensures var outcome := AppendTo(PublishAll(log, init), last).1;
      FromRequests(log, Extend(history, outcome), from, init + [last],
                   if outcome.Appended? then src + [|init|] else src)
  {
    var outcome := AppendTo(PublishAll(log, init), last).1;
    var reqs := init + [last];
    AppendedLast(log, init, last);
    AppendedCarries(PublishAll(log, init), last);
    hide AppendTo, PublishAll, AppendedAt, Carries;
    forall k: nat | k < |init|
      ensures AppendedAt(log, reqs, k) <==> AppendedAt(log, init, k)
      ensures reqs[k] == init[k]
    {
      AppendedPrefix(log, init, last, k);
    }
    var src' := if outcome.Appended? then src + [|init|] else src;
    forall k: nat | k < |reqs| && AppendedAt(log, reqs, k)
      ensures k in src'
    {
      if k < |init| {
        assert k in src;
      } else {
        assert src'[|src|] == k;
      }
    }
  }

  lemma {:induction false} PublishedFromRequests(log: Log, history: seq<Event>, reqs: seq<Request>)
    returns (src: seq<nat>)
    ensures FromRequests(log, Published(log, history, reqs), |history|, reqs, src)
  {
    hide *;
    if reqs == [] {
      src := [];
      FromNothing(log, history);
    } else {
      var init, last := reqs[..|reqs| - 1], reqs[|reqs| - 1];
      var before := PublishedFromRequests(log, history, init);
      FromRequestsNext(log, Published(log, history, init), |history|, init, before, last);
      PublishedSnoc(log, history, init, last);
      assert init + [last] == reqs;
      src := if AppendTo(PublishAll(log, init), last).1.Appended? then before + [|init|] else before;
    }
  }

  lemma FromNothing(log: Log, history: seq<Event>)
    ensures FromRequests(log, Published(log, history, []), |history|, [], [])
  {
  }

  lemma PublishedSnoc(log: Log, history: seq<Event>, init: seq<Request>, last: Request)
    ensures Published(log, history, init + [last])
         == Extend(Published(log, history, init), AppendTo(PublishAll(log, init), last).1)
  {
    hide AppendTo, PublishAll;
    assert (init + [last])[..|init|] == init;
  }

  lemma {:induction false} PublishedConcat(log: Log, history: seq<Event>, a: seq<Request>, b: seq<Request>)
    ensures Published(log, history, a + b) == Published(PublishAll(log, a), Published(log, history, a), b)
  {
    hide *;
    if b == [] {
      assert a + b == a;
      PublishedNone(PublishAll(log, a), Published(log, history, a));
    } else {
      var init, last := b[..|b| - 1], b[|b| - 1];
      assert a + b == (a + init) + [last] && b == init + [last];
      PublishedConcat(log, history, a, init);
      PublishConcat(log, a, init);
      PublishedSnoc(log, history, a + init, last);
      PublishedSnoc(PublishAll(log, a), Published(log, history, a), init, last);
    }
  }

  lemma PublishedNone(log: Log, history: seq<Event>)
    ensures Published(log, history, []) == history
  {
  }

  ghost predicate IsNew(history: seq<Event>, id: string) {
    forall e :: e in history ==> e.id != id
  }

  /** Exactly one event of the history has this identifier; it is at `from` or later and carries the request. */
  ghost predicate OnceAs(history: seq<Event>, from: nat, req: Request) {
    exists i :: from <= i < |history| && Carries(history[i], req)
      && forall j :: 0 <= j < |history| && j != i ==> history[j].id != req.id
  }

  lemma UnusedIsNew(log: Log, history: seq<Event>, id: string)
    requires Logs(log, history) && Unused(log, id)
    ensures IsNew(history, id)
  {
    forall e | e in history
      ensures e.id != id
    {
      assert e.Key() in log.keys;
    }
  }

  lemma CarriesId(e: Event, req: Request)
    ensures Carries(e, req) ==> e.id == req.id
  {
  }

  lemma OnceIn(log: Log, history: seq<Event>, after: seq<Event>, reqs: seq<Request>, src: seq<nat>, k: nat)
    requires FromRequests(log, after, |history|, reqs, src) && history <= after && k < |reqs| && k in src
    requires IsNew(history, reqs[k].id) && forall i, j :: 0 <= i < j < |reqs| ==> reqs[i].id != reqs[j].id
    ensures OnceAs(after, |history|, reqs[k])
  {
    hide AppendedAt, Carries;
    var m :| 0 <= m < |src| && src[m] == k;
    assert Carries(after[|history| + m], reqs[k]);
    forall j | 0 <= j < |after| && j != |history| + m
      ensures after[j].id != reqs[k].id
    {
      if j < |history| {
        assert after[j] == history[j] && history[j] in history;
      } else {
        var n := j - |history|;
        assert Carries(after[|history| + n], reqs[src[n]]);
        CarriesId(after[j], reqs[src[n]]);
      }
    }
  }

  /** Every request that gets an event gets exactly one, which carries all it asked for. */
  lemma AppendedOnce(log: Log, history: seq<Event>, reqs: seq<Request>, k: nat)
    requires Logs(log, history) && FreshRequests(log, reqs) && k < |reqs| && AppendedAt(log, reqs, k)
    ensures OnceAs(Published(log, history, reqs), |history|, reqs[k])
  {
    var src := PublishedFromRequests(log, history, reqs);
    PublishKeepsLogs(log, history, reqs);
    UnusedIsNew(log, history, reqs[k].id);
    hide AppendedAt, Logs, Published, Unused, Carries, OnceAs;
    OnceIn(log, history, Published(log, history, reqs), reqs, src, k);
  }

  // ---- The finals of one pass -------------------------------------------------------------

  function FinalRequest(f: Final, id: string, superseded: Option<string>): Request {
    Request(id, if superseded.Some? then 2 else 1, superseded, true, Some(f.Dedup()), f.body)
  }

  function FinalRequests(finals: seq<Final>, ids: seq<string>, chosen: seq<Option<string>>): seq<Request>
    requires |ids| == |finals| == |chosen|
  {
    seq(|finals|, k requires 0 <= k < |finals| => FinalRequest(finals[k], ids[k], chosen[k]))
  }

  ghost predicate FreshIds(log: Log, ids: seq<string>) {
    && (forall i :: 0 <= i < |ids| ==> Unused(log, ids[i]))
    && (forall i, j :: 0 <= i < j < |ids| ==> ids[i] != ids[j])
  }

  lemma FreshFinals(log: Log, finals: seq<Final>, ids: seq<string>, chosen: seq<Option<string>>)
    requires |ids| == |finals| == |chosen| && FreshIds(log, ids)
    ensures FreshRequests(log, FinalRequests(finals, ids, chosen))
    ensures forall k :: 0 <= k < |finals| ==> FinalRequests(finals, ids, chosen)[k].Keyed()
  {
    hide Unused;
  }

  /** A final of the pass gets an event exactly when no final of the same times, speaker and track came
  before it, in this pass or in the log. */
  lemma FinalAppendedIff(log: Log, finals: seq<Final>, ids: seq<string>, chosen: seq<Option<string>>, k: nat)
    requires |ids| == |finals| == |chosen| && FreshIds(log, ids) && k < |finals|
    ensures AppendedAt(log, FinalRequests(finals, ids, chosen), k)
       <==> finals[k].Dedup() !in log.finals && forall j :: 0 <= j < k ==> !SameSlot(finals[j], finals[k])
  {
    FreshFinals(log, finals, ids, chosen);
    var reqs := FinalRequests(finals, ids, chosen);
    hide FreshIds, FreshRequests, AppendedAt;
    AppendedIff(log, reqs, k);
    forall j | 0 <= j < k
      ensures HasKey(reqs[j], finals[k].Dedup()) <==> SameSlot(finals[j], finals[k])
    {
      SameDedupIff(finals[j], finals[k]);
    }
  }

  /** The event of a final: everything it says, and what it replaces. */
  predicate Replaces(e: Event, f: Final, id: string, superseded: Option<string>) {
    && e.id == id && e.isFinal && e.body == f.body && e.supersedes == superseded
    && e.dedup == Some(DedupKey(f.interval.start, f.interval.end, f.speaker, f.track))
    && e.revision == if superseded.Some? then 2 else 1
  }

  /** A final that gets an event gets exactly one, with its text and key, and replacing exactly the
  provisional chosen for it. */
  lemma FinalEventIs(log: Log, history: seq<Event>, finals: seq<Final>, ids: seq<string>, chosen: seq<Option<string>>,
                     k: nat)
    requires Logs(log, history) && |ids| == |finals| == |chosen| && FreshIds(log, ids) && k < |finals|
    requires finals[k].Dedup() !in log.finals && forall j :: 0 <= j < k ==> !SameSlot(finals[j], finals[k])
    ensures var after := Published(log, history, FinalRequests(finals, ids, chosen));
      exists i :: |history| <= i < |after| && Replaces(after[i], finals[k], ids[k], chosen[k])
        && forall j :: 0 <= j < |after| && j != i ==> after[j].id != ids[k]
  {
    var reqs := FinalRequests(finals, ids, chosen);
    var after := Published(log, history, reqs);
    FinalAppendedIff(log, finals, ids, chosen, k);
    FreshFinals(log, finals, ids, chosen);
    AppendedOnce(log, history, reqs, k);
    hide Logs, FreshIds, FreshRequests, AppendedAt, Unused, SameSlot, DedupKey, Published;
    var i :| |history| <= i < |after| && Carries(after[i], reqs[k])
      && forall j :: 0 <= j < |after| && j != i ==> after[j].id != reqs[k].id;
    assert Replaces(after[i], finals[k], ids[k], chosen[k]);
  }

  ghost predicate DistinctSlots(finals: seq<Final>) {
    forall j, k :: 0 <= j < k < |finals| ==> !SameSlot(finals[j], finals[k])
  }

  lemma {:induction false} PublishedAtMost(log: Log, history: seq<Event>, reqs: seq<Request>)
    ensures |Published(log, history, reqs)| <= |history| + |reqs|
    ensures |Published(log, history, reqs)| == |history| + |reqs|
       <==> forall k: nat :: k < |reqs| ==> AppendedAt(log, reqs, k)
  {
    if reqs != [] {
      var init, last := reqs[..|reqs| - 1], reqs[|reqs| - 1];
      PublishedAtMost(log, history, init);
      AppendedLast(log, init, last);
      assert init + [last] == reqs;
      hide AppendTo, PublishAll, AppendedAt;
      forall k: nat | k < |init|
        ensures AppendedAt(log, reqs, k) <==> AppendedAt(log, init, k)
      {
        AppendedPrefix(log, init, last, k);
      }
    }
  }

  /** Every final of the pass gets an event of its own exactly when no two of them have the same times,
  speaker and track and the log has none of their keys. */
  lemma EveryFinalPublishedIff(log: Log, history: seq<Event>, finals: seq<Final>, ids: seq<string>,
                               chosen: seq<Option<string>>)
    requires |ids| == |finals| == |chosen| && FreshIds(log, ids)
    ensures |Published(log, history, FinalRequests(finals, ids, chosen))| == |history| + |finals|
       <==> DistinctSlots(finals) && forall k :: 0 <= k < |finals| ==> finals[k].Dedup() !in log.finals
  {
    var reqs := FinalRequests(finals, ids, chosen);
    PublishedAtMost(log, history, reqs);
    hide FreshIds, AppendedAt, SameSlot;
    forall k: nat | k < |finals|
      ensures AppendedAt(log, reqs, k)
         <==> finals[k].Dedup() !in log.finals && forall j :: 0 <= j < k ==> !SameSlot(finals[j], finals[k])
    {
      FinalAppendedIff(log, finals, ids, chosen, k);
    }
  }

  /** What a final without an event loses: no published event carries its identifier, and the
  provisional it was to replace is replaced by none. */
  lemma UnpublishedFinalIsLost(log: Log, history: seq<Event>, emitted: seq<Provisional>, finals: seq<Final>,
                               ids: seq<string>, chosen: seq<Option<string>>, k: nat)
    requires Paired(emitted, finals, chosen) && |ids| == |finals| && FreshIds(log, ids) && k < |finals|
    requires !AppendedAt(log, FinalRequests(finals, ids, chosen), k)
    ensures var after := Published(log, history, FinalRequests(finals, ids, chosen));
      && history <= after
      && forall i :: |history| <= i < |after| ==>
           after[i].id != ids[k] && (chosen[k].Some? ==> after[i].supersedes != chosen[k])
  {
    var reqs := FinalRequests(finals, ids, chosen);
    var after := Published(log, history, reqs);
    PairingIsInjective(emitted, finals, chosen);
    PublishedGrows(log, history, reqs);
    var src := PublishedFromRequests(log, history, reqs);
    hide AppendedAt, Paired, Unused;
    forall i | |history| <= i < |after|
      ensures after[i].id != ids[k] && (chosen[k].Some? ==> after[i].supersedes != chosen[k])
    {
      var a := src[i - |history|];
      assert Carries(after[|history| + (i - |history|)], reqs[a]) && AppendedAt(log, reqs, a);
      assert a != k;
    }
  }

  lemma {:induction false} PublishedGrows(log: Log, history: seq<Event>, reqs: seq<Request>)
    ensures history <= Published(log, history, reqs)
  {
    if reqs != [] {
      PublishedGrows(log, history, reqs[..|reqs| - 1]);
      hide AppendTo, PublishAll;
    }
  }

  /** Two finals of one pass that collapse: the second text is not published. */
  lemma SameSlotCollapses(f: Final, g: Final)
    requires SameSlot(f, g)
    ensures var after := Published(NewLog(1), [], FinalRequests([f, g], ["x", "y"], [None, None]));
      |after| == 1 && after[0].body == f.body
  {
    var finals := [f, g];
    var reqs := FinalRequests(finals, ["x", "y"], [None, None]);
    var log := NewLog(1);
    FinalAppendedIff(log, finals, ["x", "y"], [None, None], 0);
    FinalAppendedIff(log, finals, ["x", "y"], [None, None], 1);
    var src := PublishedFromRequests(log, [], reqs);
    hide AppendedAt, DedupKey;
    assert SameSlot(finals[0], finals[1]);
    PublishedAtMost(log, [], reqs);
    assert 0 in src;
    assert Carries(Published(log, [], reqs)[0], reqs[0]);
  }

  /** In the history, no provisional is superseded by two of the published finals. */
  lemma SupersededOnce(log: Log, history: seq<Event>, emitted: seq<Provisional>, finals: seq<Final>,
                       chosen: seq<Option<string>>, ids: seq<string>)
    requires Paired(emitted, finals, chosen) && |ids| == |finals|
    ensures var after := Published(log, history, FinalRequests(finals, ids, chosen));
      forall i, j :: |history| <= i < j < |after| && after[i].supersedes.Some? ==>
        after[i].supersedes != after[j].supersedes
  {
    var reqs := FinalRequests(finals, ids, chosen);
    var after := Published(log, history, reqs);
    PairingIsInjective(emitted, finals, chosen);
    var src := PublishedFromRequests(log, history, reqs);
    hide AppendedAt, Paired;
    forall i, j | |history| <= i < j < |after| && after[i].supersedes.Some?
      ensures after[i].supersedes != after[j].supersedes
    {
      var a, b := src[i - |history|], src[j - |history|];
      assert Carries(after[|history| + (i - |history|)], reqs[a])
        && Carries(after[|history| + (j - |history|)], reqs[b]);
    }
  }

  /** A provisional chosen by a final that gets an event is superseded by that event and by no other
  of the pass. */
  lemma ChosenIsSuperseded(log: Log, history: seq<Event>, emitted: seq<Provisional>, finals: seq<Final>,
                           ids: seq<string>, chosen: seq<Option<string>>, k: nat)
    requires Logs(log, history) && Paired(emitted, finals, chosen) && |ids| == |finals| && FreshIds(log, ids)
    requires k < |finals| && chosen[k].Some?
    requires finals[k].Dedup() !in log.finals && forall j :: 0 <= j < k ==> !SameSlot(finals[j], finals[k])
    ensures var after := Published(log, history, FinalRequests(finals, ids, chosen));
      exists i :: |history| <= i < |after| && after[i].id == ids[k] && after[i].supersedes == chosen[k]
        && forall j :: |history| <= j < |after| && j != i ==> after[j].supersedes != chosen[k]
  {
    var after := Published(log, history, FinalRequests(finals, ids, chosen));
    PairingIsInjective(emitted, finals, chosen);
    FinalEventIs(log, history, finals, ids, chosen, k);
    SupersededOnce(log, history, emitted, finals, chosen, ids);
    hide Paired, Logs, FreshIds, Published, FinalRequests, SameSlot, DedupKey;
    var i :| |history| <= i < |after| && Replaces(after[i], finals[k], ids[k], chosen[k])
      && forall j :: 0 <= j < |after| && j != i ==> after[j].id != ids[k];
    forall j | |history| <= j < |after| && j != i
      ensures after[j].supersedes != chosen[k]
    {
      var lo, hi := if i < j then i else j, if i < j then j else i;
      assert after[lo].supersedes.Some? ==> after[lo].supersedes != after[hi].supersedes;
    }
  }

  /** Publishing the same finals again, whatever they are said to replace then, leaves the log as it is. */
  lemma RepublishingChangesNothing(log: Log, finals: seq<Final>, ids: seq<string>, chosen: seq<Option<string>>,
                                   ids': seq<string>, chosen': seq<Option<string>>)
    requires |ids| == |finals| == |chosen| && |ids'| == |finals| == |chosen'| && FreshIds(log, ids)
    ensures var done := PublishAll(log, FinalRequests(finals, ids, chosen));
      PublishAll(done, FinalRequests(finals, ids', chosen')) == done
  {
    FreshFinals(log, finals, ids, chosen);
    var reqs, again := FinalRequests(finals, ids, chosen), FinalRequests(finals, ids', chosen');
    forall i | 0 <= i < |again|
      ensures again[i].Keyed() && KeyAmong(again[i], reqs)
    {
      assert reqs[i].dedup == again[i].dedup;
    }
    hide PublishAll, NoneRefused, KeyAmong, FreshIds, FreshRequests;
    FreshAccepted(log, reqs);
    PublishAgain(log, reqs, again);
  }
}
