/**
 Partial transcription: one slot for the transcription in flight, guarded by a run id, while finished transcriptions
 come back at any time. internal/voicews/session.go:482, 512-514, 582-599, 649-659, 743-751 and 2031-2071.

 The reader goroutine handles one event after another; each transcription runs in its own goroutine and takes the
 lock only to give its slot back. Every critical section, and every call of a cancel function outside the lock, is
 one step, and the steps may come in any order the program allows.
 */
module PartialAsr {
  import opened Common

  /** partialRunID, partialInFlight and partialCancel; a cancel function is named by the run it cancels. */
  datatype Slot = Slot(runID: nat, inFlight: bool, cancel: Option<nat>) {
    /** cancelPartialASRLocked, and what an accepted audio.start does to the slot. */
    function Cancelled(): Slot {
      Slot(runID + 1, false, None)
    }

    function Launched(): Slot {
      Slot(runID + 1, true, Some(runID + 1))
    }

    /** The deferred end of run id. */
    function Returned(id: nat): Slot {
      if runID == id then Slot(runID, false, None) else this
    }
  }

  /**
   Where the reader stands: between events; about to call a cancel function it took under the lock; or, while it
   handles audio.start, between the two critical sections.
   */
  datatype Reader = Ready | Cancelling(id: nat, starting: bool) | Starting

  /** running: the transcriptions not yet returned, and whether their context has been cancelled. */
  datatype State = State(slot: Slot, running: map<nat, bool>, launched: seq<nat>, reader: Reader)

  const INITIAL := State(Slot(0, false, None), map[], [], Ready)

  datatype Step =
    | Cancel(starting: bool) // the locked part of audio.start's first half, audio.stop, input.cancel or a close
    | CallCancel             // the call of the cancel function taken there
    | FinishStart(accepted: bool)
    | Launch                 // the locked part of a chunk that starts a transcription
    | Return(id: nat)

  predicate Enabled(s: State, step: Step) {
    match step
    case Cancel(_) => s.reader.Ready?
    case CallCancel => s.reader.Cancelling?
    case FinishStart(_) => s.reader.Starting?
    case Launch => s.reader.Ready? && !s.slot.inFlight
    case Return(id) => id in s.running
  }

  function Then(starting: bool): Reader {
    if starting then Starting else Ready
  }

  function Next(s: State, step: Step): State
    requires Enabled(s, step)
  {
    match step
    case Cancel(starting) =>
      var reader := if s.slot.cancel.Some? then Cancelling(s.slot.cancel.value, starting) else Then(starting);
      s.(slot := s.slot.Cancelled(), reader := reader)
    case CallCancel =>
      var id := s.reader.id;
      s.(running := if id in s.running then s.running[id := true] else s.running, reader := Then(s.reader.starting))
    case FinishStart(accepted) => s.(slot := if accepted then s.slot.Cancelled() else s.slot, reader := Ready)
    case Launch =>
      var slot := s.slot.Launched();
      s.(slot := slot, running := s.running[slot.runID := false], launched := s.launched + [slot.runID])
    case Return(id) => s.(slot := s.slot.Returned(id), running := s.running - {id})
  }

  /** A step that the program cannot take in a state is skipped, so every list of steps is a run. */
  function After(run: seq<Step>): State {
    if run == [] then INITIAL
    else
      var s, step := After(run[..|run| - 1]), run[|run| - 1];
      if Enabled(s, step) then Next(s, step) else s
  }

  lemma AfterSnoc(run: seq<Step>, step: Step)
    ensures var s := After(run);
            After(run + [step]) == if Enabled(s, step) then Next(s, step) else s
  {
    assert (run + [step])[..|run|] == run;
  }

  // ---- What holds in every state ----

  ghost predicate BeingCancelled(s: State, id: nat) {
    s.reader.Cancelling? && s.reader.id == id
  }

  ghost predicate Increasing(ids: seq<nat>) {
    forall i, j :: 0 <= i < j < |ids| ==> ids[i] < ids[j]
  }

  ghost predicate Invariant(s: State) {
    && Increasing(s.launched)
    && (forall id :: id in s.launched ==> id <= s.slot.runID)
    && (forall id :: id in s.running ==> id in s.launched)
    && (s.slot.inFlight <==> s.slot.runID in s.running)
    && s.slot.cancel == (if s.slot.inFlight then Some(s.slot.runID) else None)
    && (s.slot.inFlight ==> !s.running[s.slot.runID])
    && (s.reader.Cancelling? ==> s.reader.id < s.slot.runID)
    && (s.reader.Cancelling? || s.reader.Starting? ==> !s.slot.inFlight)
    && (forall id :: id in s.running && id != s.slot.runID ==> (s.running[id] <==> !BeingCancelled(s, id)))
  }

  lemma CancelKeepsInvariant(s: State, starting: bool)
    requires Invariant(s) && s.reader.Ready?
    ensures Invariant(Next(s, Cancel(starting)))
  {
    assert s.slot.runID + 1 !in s.launched;
  }

  lemma CallCancelKeepsInvariant(s: State)
    requires Invariant(s) && s.reader.Cancelling?
    ensures Invariant(Next(s, CallCancel))
  {
  }

  lemma FinishStartKeepsInvariant(s: State, accepted: bool)
    requires Invariant(s) && s.reader.Starting?
    ensures Invariant(Next(s, FinishStart(accepted)))
  {
    assert s.slot.runID + 1 !in s.launched;
  }

  lemma LaunchKeepsInvariant(s: State)
    requires Invariant(s) && s.reader.Ready? && !s.slot.inFlight
    ensures Invariant(Next(s, Launch))
  {
    var id, launched := s.slot.runID + 1, s.launched + [s.slot.runID + 1];
    assert id !in s.launched && launched[|s.launched|] == id;
    forall i, j | 0 <= i < j < |launched| ensures launched[i] < launched[j] {
      assert s.launched[i] in s.launched;
    }
    assert forall k :: k in launched <==> k in s.launched || k == id;
  }

  lemma ReturnKeepsInvariant(s: State, id: nat)
    requires Invariant(s) && id in s.running
    ensures Invariant(Next(s, Return(id)))
  {
  }

  lemma {:induction false} InvariantHolds(run: seq<Step>)
    ensures Invariant(After(run))
  {
    if run != [] {
      InvariantHolds(run[..|run| - 1]);
      var s, step := After(run[..|run| - 1]), run[|run| - 1];
      if Enabled(s, step) {
        match step
        case Cancel(starting) => CancelKeepsInvariant(s, starting);
        case CallCancel => CallCancelKeepsInvariant(s);
        case FinishStart(accepted) => FinishStartKeepsInvariant(s, accepted);
        case Launch => LaunchKeepsInvariant(s);
        case Return(id) => ReturnKeepsInvariant(s, id);
      }
    }
  }

  // ---- What that means ----

  /** The slot is taken exactly while the transcription with the current id runs; so it is never lost. */
  lemma SlotIsTakenIffCurrentRuns(run: seq<Step>)
    ensures var s := After(run);
            && (s.slot.inFlight <==> s.slot.runID in s.running)
            && (s.running == map[] ==> !s.slot.inFlight)
            && (s.slot.inFlight ==> s.slot.cancel == Some(s.slot.runID))
            && (!s.slot.inFlight ==> s.slot.cancel == None)
  {
    InvariantHolds(run);
  }

  /** No two transcriptions ever share an id. */
  lemma RunIdsAreUnique(run: seq<Step>, i: nat, j: nat)
    requires i < j < |After(run).launched|
    ensures After(run).launched[i] < After(run).launched[j] <= After(run).slot.runID
  {
    InvariantHolds(run);
    assert After(run).launched[j] in After(run).launched;
  }

  /** A running transcription has been cancelled, or is just being cancelled, if and only if its id is not current. */
  lemma ExactlyTheOldOnesAreCancelled(run: seq<Step>, id: nat)
    requires id in After(run).running
    ensures After(run).running[id] || BeingCancelled(After(run), id) <==> id != After(run).slot.runID
    ensures id <= After(run).slot.runID
  {
    InvariantHolds(run);
  }

  /** Between two events of the reader at most one transcription is not cancelled, and it holds the slot. */
  lemma AtMostOneIsLive(run: seq<Step>, id: nat)
    requires id in After(run).running && !After(run).running[id] && After(run).reader.Ready?
    ensures After(run).slot == Slot(id, true, Some(id))
  {
    InvariantHolds(run);
  }

  /** A transcription that comes back after it was superseded leaves the slot, and the newer one, alone. */
  lemma StaleReturnFreesNothing(run: seq<Step>, id: nat)
    requires id in After(run).running && id != After(run).slot.runID
    ensures var s, next := After(run), After(run + [Return(id)]);
            && next.slot == s.slot && id < s.slot.runID
            && (s.slot.inFlight ==> s.slot.runID in next.running && !next.running[s.slot.runID])
  {
    InvariantHolds(run);
    assert (run + [Return(id)])[..|run|] == run;
  }

  /** audio.start throws away no cancel function of a transcription that nobody has cancelled. */
  lemma StartForgetsNoRunningTranscription(run: seq<Step>)
    requires After(run).reader.Starting?
    ensures After(run).slot.cancel.None? && !After(run).slot.inFlight
    ensures forall id :: id in After(run).running ==> After(run).running[id]
  {
    InvariantHolds(run);
    var s := After(run);
    forall id | id in s.running ensures s.running[id] {
      assert id != s.slot.runID;
    }
  }

  // ---- Without the run id ----

  /** What the slot would be if the end of a transcription freed it without comparing ids. */
  function ReturnedUnguarded(slot: Slot): Slot {
    slot.(inFlight := false, cancel := None)
  }

  /**
   The comparison is needed: freeing the slot regardless breaks the invariant exactly when a superseded transcription
   comes back while a newer one runs.
   */
  lemma TheGuardIsNeeded(run: seq<Step>, id: nat)
    requires id in After(run).running
    ensures var s := After(run);
            Invariant(s.(slot := ReturnedUnguarded(s.slot), running := s.running - {id}))
            <==> id == s.slot.runID || !s.slot.inFlight
  {
    InvariantHolds(run);
    ReturnKeepsInvariant(After(run), id);
  }
}
