/** The speakers of one session: creation under a cap, merges, cannot-link constraints, promotions,
voice-id decisions and the stream of label changes.

The operations are given on values of type `Session`; the class performs them on its fields.
*/
module SessionState {
  import opened Decimals
  import opened MergeForest
  import opened Options
  import opened Speakers

  type Label = string

  const UNATTRIBUTED_LABEL: Label := "Unknown"

  const SPEAKER_PREFIX: Label := "Speaker "

  const TEMPORARY_PREFIX: Label := "Temporary Speaker "

  function SpeakerLabel(index: nat): Label {
    SPEAKER_PREFIX + Decimal(index)
  }

  function TemporaryLabel(index: nat): Label {
    TEMPORARY_PREFIX + Decimal(index)
  }

  predicate Temporary(display: Label) {
    TEMPORARY_PREFIX <= display
  }

  lemma GeneratedLabels(i: nat, j: nat)
    ensures Temporary(TemporaryLabel(i)) && !Temporary(SpeakerLabel(i))
    ensures SpeakerLabel(i) == SpeakerLabel(j) <==> i == j
  {
    DecimalInjective(i, j);
    assert SpeakerLabel(i)[0] != TEMPORARY_PREFIX[0];
    assert SpeakerLabel(i)[|SPEAKER_PREFIX|..] == Decimal(i) && SpeakerLabel(j)[|SPEAKER_PREFIX|..] == Decimal(j);
  }

  datatype Speaker = Speaker(machine: Machine, display: Label, cluster: Option<string>, registry: Option<string>,
                             voice: Voice, mergedInto: Option<Id>, cannotLink: set<Id>)

  datatype LabelChange = LabelChange(id: Id, previous: Label, current: Label, reason: string)

  type Roster = map<Id, Speaker>

  datatype Session = Session(cap: nat, calibrated: bool, speakers: Roster, order: seq<Id>,
                             pending: seq<LabelChange>, temporaries: nat, labels: nat, sink: Option<Id>)

  function NewSession(cap: nat, calibrated: bool): Session {
    Session(cap, calibrated, map[], [], [], 0, 0, None)
  }

  function NewSpeaker(machine: Machine, display: Label, cluster: Option<string>): Speaker {
    Speaker(machine, display, cluster, None, Voice(None, []), None, {})
  }

  function LinksOf(speakers: Roster): Links {
    map id | id in speakers :: speakers[id].mergedInto
  }

  function StoredOf(speakers: Roster): Stored {
    map id | id in speakers :: speakers[id].cannotLink
  }

  function LabelsOf(speakers: Roster): map<Id, Label> {
    map id | id in speakers :: speakers[id].display
  }

  /** Active identities in order of creation, without `skip`. */
  function Active(order: seq<Id>, speakers: Roster, skip: Option<Id>): seq<Id> {
    if order == [] then []
    else
      var last := order[|order| - 1];
      Active(order[..|order| - 1], speakers, skip)
      + (if last in speakers && speakers[last].mergedInto.None? && Some(last) != skip then [last] else [])
  }

  function ActiveIds(s: Session): seq<Id> {
    Active(s.order, s.speakers, None)
  }

  /** Identities and links are consistent: what every operation may rely on. */
  ghost predicate Sane(s: Session) {
    && Forest(LinksOf(s.speakers))
    && (forall id :: id in s.order <==> id in s.speakers)
    && (forall i, j :: 0 <= i < j < |s.order| ==> s.order[i] != s.order[j])
    && (s.sink.Some? ==> s.sink.value in s.speakers)
  }

  ghost function Get(s: Session, id: Id): (r: Id)
    requires Sane(s) && id in s.speakers
    ensures r in s.speakers && s.speakers[r].mergedInto.None?
  {
    Root(LinksOf(s.speakers), id)
  }

  function Put(s: Session, id: Id, sp: Speaker): Session {
    s.(speakers := s.speakers[id := sp])
  }

  function Register(s: Session, id: Id, sp: Speaker): Session {
    s.(speakers := s.speakers[id := sp], order := s.order + [id])
  }

  /** Relabel one identity and queue the change. */
  function Relabel(s: Session, id: Id, sp: Speaker, display: Label, reason: string): Session
    requires id in s.speakers
  {
    Put(s, id, sp.(display := display)).(
      pending := s.pending + [LabelChange(id, s.speakers[id].display, display, reason)])
  }

  // ---- Operations -------------------------------------------------------------------------

  datatype VoiceId = Accepted(registry: string, name: string) | Contradicted | NoDecision

  datatype Op =
    | Create(id: Id, cluster: Option<string>, display: Option<Label>)
    | CreateTemporary(id: Id)
    | Unattributed(id: Id)
    | CannotLink(a: Id, b: Id)
    | Merge(a: Id, b: Id, reason: string)
    | Promote(id: Id, reason: string, display: Option<Label>)
    | ApplyVoiceId(id: Id, decision: VoiceId)
    | LearnVoice(id: Id, buffered: bool)
    | FinalizeUnresolved
    | Drain

  /** A requested label, unless there is none or it is empty. */
  function NameFor(display: Option<Label>, index: nat): Label {
    if display.Some? && display.value != "" then display.value else SpeakerLabel(index)
  }

  function DoCreate(s: Session, id: Id, cluster: Option<string>, display: Option<Label>): Session {
    if |ActiveIds(s)| >= s.cap then s
    else
      var s1 := s.(labels := s.labels + 1);
      if id in s.speakers then s1
      else
        Register(s1, id, NewSpeaker(NewMachine(SESSION_ANONYMOUS), NameFor(display, s.labels + 1), cluster))
  }

  function DoCreateTemporary(s: Session, id: Id): Session {
    if |ActiveIds(s)| >= s.cap then s
    else
      var s1 := s.(temporaries := s.temporaries + 1);
      if id in s.speakers then s1
      else Register(s1, id, NewSpeaker(NewMachine(PROVISIONAL), TemporaryLabel(s.temporaries + 1), None))
  }

  function UnknownMachine(): Machine {
    Step(NewMachine(PROVISIONAL), UNKNOWN, "insufficient_evidence").value
  }

  function DoUnattributed(s: Session, id: Id): Session {
    if s.sink.Some? || id in s.speakers then s
    else Register(s, id, NewSpeaker(UnknownMachine(), UNATTRIBUTED_LABEL, None)).(sink := Some(id))
  }

  ghost predicate Both(s: Session, a: Id, b: Id)
    requires Sane(s)
  {
    a in s.speakers && b in s.speakers && Get(s, a) != Get(s, b)
  }

  ghost function DoCannotLink(s: Session, a: Id, b: Id): Session
    requires Sane(s)
  {
    if !Both(s, a, b) then s
    else
      var x, y := Get(s, a), Get(s, b);
      var s1 := Put(s, x, s.speakers[x].(cannotLink := s.speakers[x].cannotLink + {y}));
      Put(s1, y, s.speakers[y].(cannotLink := s.speakers[y].cannotLink + {x}))
  }

  /** The guard of the code: the target itself is not among the source's stored identities. */
  ghost predicate CanMerge(s: Session, a: Id, b: Id)
    requires Sane(s)
  {
    Both(s, a, b) && Get(s, b) !in s.speakers[Get(s, a)].cannotLink
  }

  /** A provisional source becomes anonymous, and an anonymous one merged; others keep their state. */
  function MergedMachine(m: Machine, reason: string): Machine {
    var m1 := if m.state.PROVISIONAL? then Step(m, SESSION_ANONYMOUS, reason).value else m;
    if m1.state.SESSION_ANONYMOUS? then Step(m1, MERGED, reason).value else m1
  }

  function MergeRoots(s: Session, src: Id, tgt: Id, reason: string): Session
    requires src in s.speakers && tgt in s.speakers
  {
    var from, to := s.speakers[src], s.speakers[tgt];
    var s1 := Put(s, tgt, to.(
      voice := if to.voice.current.None? then to.voice.(current := from.voice.current) else to.voice,
      cannotLink := to.cannotLink + (from.cannotLink - {tgt})));
    Relabel(s1, src, from.(machine := MergedMachine(from.machine, reason), mergedInto := Some(tgt)), to.display, reason)
  }

  ghost function DoMerge(s: Session, a: Id, b: Id, reason: string): Session
    requires Sane(s)
  {
    if CanMerge(s, a, b) then MergeRoots(s, Get(s, a), Get(s, b), reason) else s
  }

  function PromoteRoot(s: Session, r: Id, reason: string, display: Option<Label>): Session
    requires r in s.speakers
  {
    var sp := s.speakers[r];
    if !sp.machine.state.PROVISIONAL? then s
    else
      var s1 := if display.None? then s.(labels := s.labels + 1) else s;
      var name := if display.Some? then display.value else SpeakerLabel(s.labels + 1);
      Relabel(s1, r, sp.(machine := Step(sp.machine, SESSION_ANONYMOUS, reason).value), name, reason)
  }

  function VoiceIdRoot(s: Session, r: Id, decision: VoiceId): Session
    requires r in s.speakers
  {
    var sp := s.speakers[r];
    match decision
    case Accepted(registry, name) =>
      if registry == "" || name == "" then s
      else
        var state := sp.machine.state;
        var machine :=
          if state in {PROVISIONAL, SESSION_ANONYMOUS} then Step(sp.machine, ENROLLED, "voice_id_accept").value
          else if state.AMBIGUOUS? then Step(sp.machine, ENROLLED, "voice_id_reaccept").value
          else sp.machine;
        Relabel(s, r, sp.(machine := machine, registry := Some(registry)), name, "voice_id_accept")
    case Contradicted =>
      if sp.machine.state.ENROLLED? then
        Put(s, r, sp.(machine := Step(sp.machine, AMBIGUOUS, "voice_id_contradiction").value))
      else s
    case NoDecision => s
  }

  /** An embedding that passed the quality gates updates the prototype; `buffered` evidence is only
  for provisional speakers, other evidence not for unknown or ambiguous ones. */
  function LearnRoot(s: Session, r: Id, buffered: bool): Session
    requires r in s.speakers
  {
    var sp := s.speakers[r];
    var state := sp.machine.state;
    if (if buffered then state.PROVISIONAL? else !state.UNKNOWN? && !state.AMBIGUOUS?) then
      Put(s, r, sp.(voice := Learn(sp.voice, r)))
    else s
  }

  /** What finalization does to one active speaker. */
  function FinalizeOne(s: Session, id: Id): Session
    requires id in s.speakers
  {
    var sp := s.speakers[id];
    if !sp.machine.state.PROVISIONAL? then s
    else if sp.voice.current.None? then
      Put(s, id, sp.(machine := Step(sp.machine, UNKNOWN, "insufficient_evidence").value))
    else if s.calibrated then PromoteRoot(s, id, "separated_evidence_final", None)
    else s
  }

  function FinalizeAll(s: Session, ids: seq<Id>): (r: Session)
    requires forall id :: id in ids ==> id in s.speakers
    ensures r.speakers.Keys == s.speakers.Keys
  {
    if ids == [] then s
    else FinalizeOne(FinalizeAll(s, ids[..|ids| - 1]), ids[|ids| - 1])
  }

  lemma {:induction false} ActiveKnown(order: seq<Id>, speakers: Roster, skip: Option<Id>)
    ensures forall id :: id in Active(order, speakers, skip) <==>
      id in order && id in speakers && speakers[id].mergedInto.None? && Some(id) != skip
  {
    if order != [] {
      ActiveKnown(order[..|order| - 1], speakers, skip);
      assert order == order[..|order| - 1] + [order[|order| - 1]];
    }
  }

  ghost function Do(s: Session, op: Op): Session
    requires Sane(s)
  {
    match op
    case Create(id, cluster, display) => DoCreate(s, id, cluster, display)
    case CreateTemporary(id) => DoCreateTemporary(s, id)
    case Unattributed(id) => DoUnattributed(s, id)
    case CannotLink(a, b) => DoCannotLink(s, a, b)
    case Merge(a, b, reason) => DoMerge(s, a, b, reason)
    case Promote(id, reason, display) => if id in s.speakers then PromoteRoot(s, Get(s, id), reason, display) else s
    case ApplyVoiceId(id, decision) => if id in s.speakers then VoiceIdRoot(s, Get(s, id), decision) else s
    case LearnVoice(id, buffered) => if id in s.speakers then LearnRoot(s, Get(s, id), buffered) else s
    case FinalizeUnresolved =>
      ActiveKnown(s.order, s.speakers, None);
      FinalizeAll(s, ActiveIds(s))
    case Drain => s.(pending := [])
  }
}
