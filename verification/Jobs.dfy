/** Jobs: the state guard, and creation under an idempotency key. */
module Jobs {
  import opened Options

  datatype JobState =
    | QUEUED | PREPROCESSING | DIARIZING | TRANSCRIBING | SEPARATING | LINKING | FUSING
    | SUCCEEDED | DEGRADED_SUCCEEDED | FAILED | CANCELLED

  predicate Terminal(s: JobState) {
    s in {SUCCEEDED, DEGRADED_SUCCEEDED, FAILED, CANCELLED}
  }

  /** The guard: a terminal state can only be confirmed. */
  predicate CanBecome(s: JobState, next: JobState) {
    Terminal(s) ==> next == s
  }

  datatype Job = Job(tenant: string, inputHash: string, state: JobState, error: Option<string>)

  datatype Store = Store(jobs: map<string, Job>, byKey: map<(string, string), string>)

  datatype Created = New(id: string) | Found(id: string) | Conflict

  /** `freshId` is the identifier the call would generate. */
  function CreateOrGet(store: Store, tenant: string, key: string, inputHash: string, freshId: string): (Store, Created)
    requires WellFormed(store)
  {
    if (tenant, key) in store.byKey then
      var id := store.byKey[(tenant, key)];
      (store, if store.jobs[id].inputHash != inputHash then Conflict else Found(id))
    else
      (Store(store.jobs[freshId := Job(tenant, inputHash, QUEUED, None)], store.byKey[(tenant, key) := freshId]),
       New(freshId))
  }

  function UpdateState(store: Store, tenant: string, id: string, state: JobState): (Store, bool) {
    if id in store.jobs && store.jobs[id].tenant == tenant && CanBecome(store.jobs[id].state, state) then
      (store.(jobs := store.jobs[id := store.jobs[id].(state := state)]), true)
    else (store, false)
  }

  function SetError(store: Store, tenant: string, id: string, error: string): (Store, bool) {
    if id in store.jobs && store.jobs[id].tenant == tenant then
      (store.(jobs := store.jobs[id := store.jobs[id].(error := Some(error))]), true)
    else (store, false)
  }

  class InMemoryJobStore {
    var jobs: map<string, Job>
    var byKey: map<(string, string), string>

    ghost function State(): Store
      reads this
    {
      Store(jobs, byKey)
    }

    ghost predicate Valid()
      reads this
    {
      WellFormed(State())
    }

    constructor ()
      ensures Valid() && State() == Store(map[], map[])
    {
      jobs, byKey := map[], map[];
    }

    method Create(tenant: string, key: string, inputHash: string, freshId: string) returns (r: Created)
      requires Valid() && freshId !in jobs
      modifies this
      ensures Valid() && (State(), r) == CreateOrGet(old(State()), tenant, key, inputHash, freshId)
    {
      CreateKeepsWellFormed(State(), tenant, key, inputHash, freshId);
      if (tenant, key) in byKey {
        var id := byKey[(tenant, key)];
        if jobs[id].inputHash != inputHash {
          return Conflict;
        }
        return Found(id);
      }
      jobs := jobs[freshId := Job(tenant, inputHash, QUEUED, None)];
      byKey := byKey[(tenant, key) := freshId];
      r := New(freshId);
    }

    /** `ok` is false where the source raises: another tenant's job, no job, or a terminal state. */
    method Update(tenant: string, id: string, state: JobState) returns (ok: bool)
      requires Valid()
      modifies this
      ensures Valid() && (State(), ok) == UpdateState(old(State()), tenant, id, state)
    {
      if id !in jobs || jobs[id].tenant != tenant || !CanBecome(jobs[id].state, state) {
        return false;
      }
      jobs := jobs[id := jobs[id].(state := state)];
      ok := true;
    }
  }

  // ---- Runs -------------------------------------------------------------------------------

  /** Every key names a job of its own tenant, and no two keys share a job. */
  ghost predicate WellFormed(store: Store) {
    && (forall k :: k in store.byKey ==> store.byKey[k] in store.jobs && store.jobs[store.byKey[k]].tenant == k.0)
    && (forall k, l :: k in store.byKey && l in store.byKey && store.byKey[k] == store.byKey[l] ==> k == l)
  }

  lemma CreateKeepsWellFormed(store: Store, tenant: string, key: string, inputHash: string, freshId: string)
    requires WellFormed(store) && freshId !in store.jobs
    ensures WellFormed(CreateOrGet(store, tenant, key, inputHash, freshId).0)
  {
  }

  datatype Call =
    | Create(tenant: string, key: string, inputHash: string, freshId: string)
    | Update(tenant: string, id: string, state: JobState)
    | Fail(tenant: string, id: string, error: string)

  /** What later calls cannot change about a job: its key, its input, and a terminal state. */
  ghost predicate Persists(before: Store, after: Store) {
    && (forall k :: k in before.byKey ==> k in after.byKey && after.byKey[k] == before.byKey[k])
    && (forall id :: id in before.jobs ==>
          && id in after.jobs
          && after.jobs[id].inputHash == before.jobs[id].inputHash
          && (Terminal(before.jobs[id].state) ==> after.jobs[id].state == before.jobs[id].state))
  }

  function Do(store: Store, c: Call): (r: Store)
    requires WellFormed(store)
    ensures WellFormed(r) && Persists(store, r)
  {
    match c
    case Create(tenant, key, inputHash, freshId) =>
      if freshId in store.jobs then store else CreateOrGet(store, tenant, key, inputHash, freshId).0
    case Update(tenant, id, state) => UpdateState(store, tenant, id, state).0
    case Fail(tenant, id, error) => SetError(store, tenant, id, error).0
  }

  lemma PersistsTransitive(a: Store, b: Store, c: Store)
    requires Persists(a, b) && Persists(b, c)
    ensures Persists(a, c)
  {
  }

  function DoAll(store: Store, calls: seq<Call>): (r: Store)
    requires WellFormed(store)
    ensures WellFormed(r) && Persists(store, r)
    decreases |calls|
  {
    if calls == [] then store
    else
      var before := DoAll(store, calls[..|calls| - 1]);
      var after := Do(before, calls[|calls| - 1]);
      PersistsTransitive(store, before, after);
      after
  }

  /** A retry under the same key gets the first job back, whatever happened in between; the same
  key with another input is a conflict. */
  lemma RetryFindsFirstJob(store: Store, tenant: string, key: string, inputHash: string, freshId: string,
                           calls: seq<Call>, retryHash: string, other: string)
    requires WellFormed(store) && freshId !in store.jobs
    requires !CreateOrGet(store, tenant, key, inputHash, freshId).1.Conflict?
    ensures var (first, created) := CreateOrGet(store, tenant, key, inputHash, freshId);
      && WellFormed(first) && Persists(first, DoAll(first, calls))
      && CreateOrGet(DoAll(first, calls), tenant, key, retryHash, other)
         == (DoAll(first, calls), if retryHash == inputHash then Found(created.id) else Conflict)
  {
    CreateKeepsWellFormed(store, tenant, key, inputHash, freshId);
    var (first, created) := CreateOrGet(store, tenant, key, inputHash, freshId);
    assert first.byKey[(tenant, key)] == created.id && first.jobs[created.id].inputHash == inputHash;
    var last := DoAll(first, calls);
    hide WellFormed, DoAll;
    assert last.byKey[(tenant, key)] == created.id && last.jobs[created.id].inputHash == inputHash;
  }

  /** A key that is known answers for its job and changes nothing; a new one adds one queued job of this
  tenant and input, under a fresh identifier. */
  lemma CreateAnswer(store: Store, tenant: string, key: string, inputHash: string, freshId: string)
    requires WellFormed(store) && freshId !in store.jobs
    ensures var (after, created) := CreateOrGet(store, tenant, key, inputHash, freshId);
      if (tenant, key) in store.byKey then
        && after == store
        && created == (if store.jobs[store.byKey[(tenant, key)]].inputHash == inputHash
                       then Found(store.byKey[(tenant, key)]) else Conflict)
      else
        && created == New(freshId) && freshId in after.jobs
        && after.jobs[freshId].tenant == tenant && after.jobs[freshId].inputHash == inputHash
        && after.jobs[freshId].state == QUEUED && after.jobs[freshId].error.None?
        && after.jobs.Keys == store.jobs.Keys + {freshId}
        && after.byKey == store.byKey[(tenant, key) := freshId]
        && forall id :: id in store.jobs ==> after.jobs[id] == store.jobs[id]
  {
  }

  // ---- What updates do --------------------------------------------------------------------

  /** An update of this tenant's job is accepted unless the job is over in another state. */
  predicate Accepts(store: Store, c: Call, id: string) {
    && c.Update? && c.id == id && id in store.jobs && store.jobs[id].tenant == c.tenant
    && (store.jobs[id].state in {SUCCEEDED, DEGRADED_SUCCEEDED, FAILED, CANCELLED} ==> c.state == store.jobs[id].state)
  }

  /** An accepted update stores the state asked for; nothing else changes the state of a job, and nothing
  its tenant or input. */
  lemma StateAfterCall(store: Store, c: Call, id: string)
    requires WellFormed(store) && id in store.jobs
    ensures id in Do(store, c).jobs
    ensures Do(store, c).jobs[id].state == if Accepts(store, c, id) then c.state else store.jobs[id].state
    ensures Do(store, c).jobs[id].tenant == store.jobs[id].tenant
    ensures Do(store, c).jobs[id].inputHash == store.jobs[id].inputHash
    ensures Do(store, c).jobs[id].error
         == if c.Fail? && c.id == id && c.tenant == store.jobs[id].tenant then Some(c.error) else store.jobs[id].error
  {
  }

  predicate AcceptedAt(store: Store, calls: seq<Call>, k: nat, id: string)
    requires WellFormed(store) && k < |calls|
  {
    Accepts(DoAll(store, calls[..k]), calls[k], id)
  }

  ghost predicate LastAccepted(store: Store, calls: seq<Call>, k: nat, id: string)
    requires WellFormed(store)
  {
    k < |calls| && AcceptedAt(store, calls, k, id) && forall i :: k < i < |calls| ==> !AcceptedAt(store, calls, i, id)
  }

  ghost predicate NoneAccepted(store: Store, calls: seq<Call>, id: string)
    requires WellFormed(store)
  {
    forall i :: 0 <= i < |calls| ==> !AcceptedAt(store, calls, i, id)
  }

  lemma AcceptedPrefix(store: Store, calls: seq<Call>, id: string)
    requires WellFormed(store) && calls != []
    ensures forall i :: 0 <= i < |calls| - 1 ==>
      (AcceptedAt(store, calls[..|calls| - 1], i, id) <==> AcceptedAt(store, calls, i, id))
  {
    hide WellFormed, DoAll, Accepts;
    forall i | 0 <= i < |calls| - 1
      ensures AcceptedAt(store, calls[..|calls| - 1], i, id) <==> AcceptedAt(store, calls, i, id)
    {
      assert calls[..|calls| - 1][..i] == calls[..i];
    }
  }

  lemma DoAllSnoc(store: Store, calls: seq<Call>, id: string)
    requires WellFormed(store) && calls != []
    ensures DoAll(store, calls) == Do(DoAll(store, calls[..|calls| - 1]), calls[|calls| - 1])
    ensures AcceptedAt(store, calls, |calls| - 1, id)
       <==> Accepts(DoAll(store, calls[..|calls| - 1]), calls[|calls| - 1], id)
    ensures AcceptedAt(store, calls, |calls| - 1, id) ==> calls[|calls| - 1].Update?
  {
    hide WellFormed;
  }

  /** The last update accepted is the last call, or the last accepted among the calls before a refused one. */
  lemma LastAcceptedSplit(store: Store, calls: seq<Call>, k: nat, id: string)
    requires WellFormed(store) && LastAccepted(store, calls, k, id)
    ensures k < |calls|
    ensures AcceptedAt(store, calls, |calls| - 1, id) ==> k == |calls| - 1
    ensures !AcceptedAt(store, calls, |calls| - 1, id) ==>
      k < |calls| - 1 && LastAccepted(store, calls[..|calls| - 1], k, id)
  {
    hide WellFormed, AcceptedAt;
    AcceptedPrefix(store, calls, id);
    if !AcceptedAt(store, calls, |calls| - 1, id) {
      var init := calls[..|calls| - 1];
      forall i | k < i < |init|
        ensures !AcceptedAt(store, init, i, id)
      {
        assert !AcceptedAt(store, calls, i, id);
      }
      assert AcceptedAt(store, init, k, id);
    }
  }

  lemma NoneAcceptedSplit(store: Store, calls: seq<Call>, id: string)
    requires WellFormed(store) && calls != [] && NoneAccepted(store, calls, id)
    ensures !AcceptedAt(store, calls, |calls| - 1, id) && NoneAccepted(store, calls[..|calls| - 1], id)
  {
    hide WellFormed, AcceptedAt;
    AcceptedPrefix(store, calls, id);
    var init := calls[..|calls| - 1];
    forall i | 0 <= i < |init|
      ensures !AcceptedAt(store, init, i, id)
    {
      assert !AcceptedAt(store, calls, i, id);
    }
  }

  lemma DoAllNone(store: Store, id: string)
    requires WellFormed(store)
    ensures DoAll(store, []) == store && forall k: nat :: !LastAccepted(store, [], k, id)
  {
  }

  /** After any calls a job is in the state of the last update accepted, or the one it was in. */
  lemma {:induction false} StateAfterCalls(store: Store, calls: seq<Call>, id: string)
    requires WellFormed(store) && id in store.jobs
    ensures id in DoAll(store, calls).jobs
    ensures forall k: nat :: LastAccepted(store, calls, k, id) ==>
      k < |calls| && calls[k].Update? && DoAll(store, calls).jobs[id].state == calls[k].state
    ensures NoneAccepted(store, calls, id) ==> DoAll(store, calls).jobs[id].state == store.jobs[id].state
    decreases |calls|
  {
    hide *;
    if calls == [] {
      DoAllNone(store, id);
    } else {
      var init, last := calls[..|calls| - 1], calls[|calls| - 1];
      StateAfterCalls(store, init, id);
      StateAfterCall(DoAll(store, init), last, id);
      DoAllSnoc(store, calls, id);
      forall k: nat | LastAccepted(store, calls, k, id)
        ensures k < |calls| && calls[k].Update? && DoAll(store, calls).jobs[id].state == calls[k].state
      {
        LastAcceptedSplit(store, calls, k, id);
      }
      if NoneAccepted(store, calls, id) {
        NoneAcceptedSplit(store, calls, id);
      }
    }
  }

  predicate Foreign(store: Store, calls: seq<Call>, id: string)
    requires id in store.jobs
  {
    forall k :: 0 <= k < |calls| ==> calls[k].tenant != store.jobs[id].tenant
  }

  /** The calls of other tenants do not touch a job. */
  lemma {:induction false} TenantsAreApart(store: Store, calls: seq<Call>, id: string)
    requires WellFormed(store) && id in store.jobs && Foreign(store, calls, id)
    ensures id in DoAll(store, calls).jobs && DoAll(store, calls).jobs[id] == store.jobs[id]
    decreases |calls|
  {
    if calls != [] {
      TenantsAreApart(store, calls[..|calls| - 1], id);
      StateAfterCall(DoAll(store, calls[..|calls| - 1]), calls[|calls| - 1], id);
      hide WellFormed, Do;
    }
  }
}
