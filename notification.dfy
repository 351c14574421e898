/**
 * The "save in progress" notification rule shared by both saves systems
 * (`SaveDirtyFiles` and the writer-cycle body of Assets/Runtime/Scripts/SavesSystem.cs and
 * Assets/Runtime/Scripts/Base/SavesSystem.cs). The writer publishes a flag and a counter; the
 * main thread remembers the values it last announced and raises `SaveInProgressChanged` from the
 * difference, so that a write too fast to be seen as a flag change is still announced once.
 */
module SaveNotification {

  /** Where the writer thread is: blocked on the wake-up event, inside one write cycle, or exited. */
  datatype WriterPhase = Waiting | Writing(RequiredNotification: bool) | Stopped

  /** The writer's flag and counter, and the values the main thread last observed. */
  datatype Progress = Progress(PrevSaveInProgress: bool, PrevSaveCounter: int, IsSaveInProgress: bool, SaveCounter: int)

  /** The main thread has observed everything the writer published. */
  predicate Synced(p: Progress)
  {
    p.PrevSaveInProgress == p.IsSaveInProgress && p.PrevSaveCounter == p.SaveCounter
  }

  /** The writer is between cycles: no write announced as in progress. */
  predicate Idle(p: Progress)
  {
    !p.IsSaveInProgress
  }

  /**
   * The `SaveInProgressChanged` arguments one `SaveDirtyFiles` call raises: the flag when it differs
   * from the remembered one, otherwise a `true`/`false` pair when the counter moved, otherwise nothing.
   */
  function ObserveEvents(p: Progress): (events: seq<bool>)
    ensures events == [] <==> Synced(p)
    ensures p.PrevSaveInProgress != p.IsSaveInProgress ==> events == [p.IsSaveInProgress]
    ensures p.PrevSaveInProgress == p.IsSaveInProgress && p.PrevSaveCounter != p.SaveCounter ==> events == [true, false]
  {
    if p.PrevSaveInProgress != p.IsSaveInProgress then [p.IsSaveInProgress]
    else if p.PrevSaveCounter != p.SaveCounter then [true, false]
    else []
  }

  /** The remembered values after one `SaveDirtyFiles` call. */
  function ObserveNext(p: Progress): (q: Progress)
    ensures Synced(q)
    ensures q.IsSaveInProgress == p.IsSaveInProgress && q.SaveCounter == p.SaveCounter
  {
    if p.PrevSaveInProgress != p.IsSaveInProgress then
      p.(PrevSaveInProgress := p.IsSaveInProgress, PrevSaveCounter := p.SaveCounter)
    else if p.PrevSaveCounter != p.SaveCounter then
      p.(PrevSaveCounter := p.SaveCounter)
    else p
  }

  /** The writer wakes: it raises the flag when some pending unit asks for the notification. */
  function BeginWrite(p: Progress, required: bool): (q: Progress)
    ensures q.PrevSaveInProgress == p.PrevSaveInProgress && q.PrevSaveCounter == p.PrevSaveCounter
    ensures q.SaveCounter == p.SaveCounter
    ensures q.IsSaveInProgress == (p.IsSaveInProgress || required)
  {
    if required then p.(IsSaveInProgress := true) else p
  }

  /** The writer finishes: a notifying cycle bumps the counter and lowers the flag; another changes neither. */
  function EndWrite(p: Progress, required: bool): (q: Progress)
    ensures q.PrevSaveInProgress == p.PrevSaveInProgress && q.PrevSaveCounter == p.PrevSaveCounter
    ensures required ==> q.SaveCounter == p.SaveCounter + 1 && Idle(q)
    ensures !required ==> q == p
  {
    if required then p.(SaveCounter := p.SaveCounter + 1, IsSaveInProgress := false) else p
  }

  /** `k` notifying writer cycles with no `SaveDirtyFiles` call in between. */
  function Cycles(p: Progress, k: nat): Progress
  {
    if k == 0 then p else EndWrite(BeginWrite(Cycles(p, k - 1), true), true)
  }

  /** Once observed, nothing fires again until the writer publishes something. */
  lemma SilentWhenSynced(p: Progress)
    requires Synced(p)
    ensures ObserveEvents(p) == [] && ObserveNext(p) == p
  {
  }

  /** A cycle that needs no notification is invisible to the main thread. */
  lemma QuietCycleIsSilent(p: Progress)
    requires Synced(p)
    ensures ObserveEvents(EndWrite(BeginWrite(p, false), false)) == []
  {
  }

  /** Notifying cycles only move the counter, by one each. */
  lemma {:induction false} CyclesAdvanceCounter(p: Progress, k: nat)
    requires Idle(p)
    ensures Cycles(p, k) == p.(SaveCounter := p.SaveCounter + k)
  {
    if k > 0 {
      CyclesAdvanceCounter(p, k - 1);
    }
  }

  /**
   * However many notifying writes completed between two `SaveDirtyFiles` calls, the second call
   * announces them with exactly one `true` followed by one `false`.
   */
  lemma FastCyclesCoalesce(p: Progress, k: nat)
    requires Synced(p) && Idle(p) && k >= 1
    ensures ObserveEvents(Cycles(p, k)) == [true, false]
    ensures Synced(ObserveNext(Cycles(p, k)))
  {
    CyclesAdvanceCounter(p, k);
  }

  /**
   * A notifying write the main thread sees in progress is announced as `true` while it runs and
   * `false` after it ends, and the counter it bumped fires nothing more.
   */
  lemma SlowCycleAnnouncedOnce(p: Progress)
    requires Synced(p) && Idle(p)
    ensures ObserveEvents(BeginWrite(p, true)) == [true]
    ensures ObserveEvents(EndWrite(ObserveNext(BeginWrite(p, true)), true)) == [false]
    ensures ObserveNext(EndWrite(ObserveNext(BeginWrite(p, true)), true)) ==
              p.(SaveCounter := p.SaveCounter + 1, PrevSaveCounter := p.SaveCounter + 1)
  {
  }

  /**
   * The rule can announce one write twice: a call during cycle 1 sees the flag raised, the next
   * call lands inside cycle 2 with the flag raised again and the counter moved, and the call after
   * that sees the flag lowered. The main thread raises true, true, false, false.
   */
  lemma OverlappingCyclesRepeatTrue()
    ensures var p0 := Progress(false, 0, false, 0);
            var p1 := BeginWrite(p0, true);
            var p2 := BeginWrite(EndWrite(ObserveNext(p1), true), true);
            var p3 := EndWrite(ObserveNext(p2), true);
            ObserveEvents(p1) + ObserveEvents(p2) + ObserveEvents(p3) == [true, true, false, false]
  {
  }
}
