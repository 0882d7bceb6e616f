/** The identity state machine of one speaker, and its versioned voice prototype. */
module Speakers {
  import opened MergeForest
  import opened Options

  datatype Identity = PROVISIONAL | SESSION_ANONYMOUS | ENROLLED | MERGED | AMBIGUOUS | UNKNOWN

  predicate IsInitial(s: Identity) {
    s == PROVISIONAL || s == SESSION_ANONYMOUS
  }

  predicate Allowed(from: Identity, to: Identity) {
    match from
    case PROVISIONAL => to in {SESSION_ANONYMOUS, ENROLLED, UNKNOWN}
    case SESSION_ANONYMOUS => to in {ENROLLED, MERGED}
    case MERGED => to == SESSION_ANONYMOUS
    case ENROLLED => to == AMBIGUOUS
    case AMBIGUOUS => to in {ENROLLED, UNKNOWN}
    case UNKNOWN => false
  }

  datatype Transition = Transition(from: Identity, to: Identity, reason: string, revision: nat)

  datatype Machine = Machine(state: Identity, history: seq<Transition>) {
    function Revision(): nat {
      |history| + 1
    }
  }

  function NewMachine(initial: Identity): Machine {
    Machine(initial, [])
  }

  /** `None` where the source raises. */
  function Step(m: Machine, to: Identity, reason: string): Option<Machine> {
    if Allowed(m.state, to) then
      Some(Machine(to, m.history + [Transition(m.state, to, reason, m.Revision() + 1)]))
    else None
  }

  /** The history is a path through the table from an initial state to the current one, and every
  entry carries the revision it led to. */
  ghost predicate Recorded(m: Machine) {
    && (m.history == [] ==> IsInitial(m.state))
    && (m.history != [] ==> IsInitial(m.history[0].from) && m.history[|m.history| - 1].to == m.state)
    && (forall i :: 0 <= i < |m.history| ==>
          Allowed(m.history[i].from, m.history[i].to) && m.history[i].revision == i + 2)
    && (forall i :: 0 < i < |m.history| ==> m.history[i - 1].to == m.history[i].from)
  }

  lemma StepKeepsRecorded(m: Machine, to: Identity, reason: string)
    requires Recorded(m) && Step(m, to, reason).Some?
    ensures Recorded(Step(m, to, reason).value)
    ensures Step(m, to, reason).value.Revision() == m.Revision() + 1
  {
  }

  class SpeakerIdentityStateMachine {
    var state: Identity
    var history: seq<Transition>

    ghost function State(): Machine
      reads this
    {
      Machine(state, history)
    }

    constructor (initial: Identity)
      requires IsInitial(initial)
      ensures State() == NewMachine(initial) && Recorded(State())
    {
      state, history := initial, [];
    }

    method TransitionTo(to: Identity, reason: string) returns (ok: bool)
      requires Recorded(State())
      modifies this
      ensures Recorded(State())
      ensures ok <==> Step(old(State()), to, reason).Some?
      ensures State() == if ok then Step(old(State()), to, reason).value else old(State())
    {
      if !Allowed(state, to) {
        return false;
      }
      StepKeepsRecorded(State(), to, reason);
      history := history + [Transition(state, to, reason, |history| + 2)];
      state := to;
      ok := true;
    }
  }

  // ---- Prototypes -------------------------------------------------------------------------

  datatype Prototype = Prototype(key: Id, version: nat)

  /** The current prototype and the versions it replaced. */
  datatype Voice = Voice(current: Option<Prototype>, replaced: seq<Prototype>)

  function Learn(v: Voice, id: Id): Voice {
    match v.current
    case None => v.(current := Some(Prototype(id, 1)))
    case Some(p) => Voice(Some(p.(version := p.version + 1)), v.replaced + [p])
  }

  function Rollback(v: Voice): Voice {
    if v.replaced == [] then v else Voice(Some(v.replaced[|v.replaced| - 1]), v.replaced[..|v.replaced| - 1])
  }

  function LearnAll(v: Voice, id: Id, n: nat): Voice {
    if n == 0 then v else Learn(LearnAll(v, id, n - 1), id)
  }

  function RollbackAll(v: Voice, n: nat): Voice
    decreases n
  {
    if n == 0 then v else RollbackAll(Rollback(v), n - 1)
  }

  /** Any number of updates is undone by as many rollbacks, exactly when there was a prototype to
  update: the first prototype itself cannot be rolled back. */
  lemma {:induction false} RollbackUndoesIff(v: Voice, id: Id, n: nat)
    requires v.current.None? ==> v.replaced == []
    ensures RollbackAll(LearnAll(v, id, n), n) == v <==> v.current.Some? || n == 0
  {
    if n > 0 {
      var before := LearnAll(v, id, n - 1);
      LearnedVoice(v, id, n - 1);
      if v.current.Some? {
        assert Rollback(Learn(before, id)) == before;
        RollbackUndoesIff(v, id, n - 1);
      } else {
        StaysLearned(LearnAll(v, id, n), n);
      }
    }
  }

  lemma {:induction false} LearnedVoice(v: Voice, id: Id, n: nat)
    requires v.current.None? ==> v.replaced == []
    ensures v.current.Some? || n > 0 ==> LearnAll(v, id, n).current.Some?
  {
    if n > 0 {
      LearnedVoice(v, id, n - 1);
    }
  }

  lemma {:induction false} StaysLearned(v: Voice, n: nat)
    requires v.current.Some?
    ensures RollbackAll(v, n).current.Some?
    decreases n
  {
    if n > 0 {
      StaysLearned(Rollback(v), n - 1);
    }
  }
}
