/** What happens to the state file of a started apply: executeApplyImpl and what it calls,
    with everything that other tasks may do between two awaits. A cancel may land at any
    await, any awaited call may throw, an armed removal timer may fire, and the unguarded
    errored write of a failed configuration download may land. A timer is armed by the cancel
    routes and by every cleanup that fails, the plan's own included. Log lines are written
    without throwing, as in the source. */
module ApplyRecovery {

  /** What the rest of the system does during one await. */
  datatype Turn = Turn(cancel: bool, errored: bool, timer: bool, throws: bool)

  const QUIET := Turn(false, false, false, false)
  const CANCEL := QUIET.(cancel := true)
  const ERROR := QUIET.(errored := true)
  const TIMER := QUIET.(timer := true)
  const THROW := QUIET.(throws := true)

  /** What the run's row says; canceled stands for force-canceled too. */
  datatype Status = Applying | Canceled | Applied | Errored

  /** How the directory went while the state was neither saved nor captured: by the removal
      timer with the file already read into memory, by the timer before that, or by a cleanup. */
  datatype Sweep = NotSwept | SweptWhileHeld | SweptUnread | CleanedUnread

  /** How the apply process ended; an exceptional end is a timeout or an output failure. */
  datatype Exit = Success | Failure | Exceptional

  /** What the apply runs: a binary that may leave a state file, the simulation, or nothing
      because the preflight checks failed. */
  datatype Engine = Binary(leavesState: bool, exit: Exit) | Simulated | Preflight

  datatype Capture = NoSource | Copied | CaptureFailed

  datatype Outcome = CanceledRun(captureFailed: bool) | ApplyFailed(captureFailed: bool)
                   | SaveFailed(captureFailed: bool) | Completed | Thrown

  /** The first turn from which on there are only quiet turns, cancels and that many failures. */
  function SettledFrom(turns: seq<Turn>, failures: nat): (k: nat)
    ensures k <= |turns|
  {
    if turns == [] then 0
    else
      var last, before := turns[|turns| - 1], turns[..|turns| - 1];
      if last.errored || last.timer || (last.throws && failures == 0) then |turns|
      else SettledFrom(before, if last.throws then failures - 1 else failures)
  }

  lemma {:induction false} SettledTurn(turns: seq<Turn>, failures: nat, i: nat)
    requires SettledFrom(turns, failures) <= i < |turns|
    ensures !turns[i].errored && !turns[i].timer
    ensures turns[i].throws ==> failures > 0 && SettledFrom(turns, failures - 1) <= i + 1
  {
    var last, before := turns[|turns| - 1], turns[..|turns| - 1];
    if i < |turns| - 1 { SettledTurn(before, if last.throws then failures - 1 else failures, i); }
  }

  /** With no failure let through, these are the turns that are quiet or a cancel. */
  lemma {:induction false} SettledFromExactly(turns: seq<Turn>, k: nat)
    ensures SettledFrom(turns, 0) <= k <==> forall i :: k <= i < |turns| ==> turns[i] == QUIET || turns[i] == CANCEL
  {
    if SettledFrom(turns, 0) <= k {
      forall i | k <= i < |turns| ensures turns[i] == QUIET || turns[i] == CANCEL { SettledTurn(turns, 0, i); }
    } else {
      var last, before := turns[|turns| - 1], turns[..|turns| - 1];
      if SettledFrom(turns, 0) == |turns| && k < |turns| && (last.errored || last.timer || last.throws) {
        assert turns[|turns| - 1] != QUIET && turns[|turns| - 1] != CANCEL;
      } else {
        SettledFromExactly(before, k);
        var i :| k <= i < |before| && before[i] != QUIET && before[i] != CANCEL;
        assert turns[i] == before[i];
      }
    }
  }

  /** From `k` on there are only quiet turns, cancels and, once at most, a failure. */
  ghost predicate OneFailureFrom(turns: seq<Turn>, k: nat) {
    && (forall i :: k <= i < |turns| ==> !turns[i].errored && !turns[i].timer)
    && (forall i, j :: k <= i < j < |turns| ==> !(turns[i].throws && turns[j].throws))
  }

  lemma {:induction false} OneFailureExactly(turns: seq<Turn>, k: nat)
    ensures SettledFrom(turns, 1) <= k <==> OneFailureFrom(turns, k)
  {
    if SettledFrom(turns, 1) <= k {
      forall i | k <= i < |turns|
        ensures !turns[i].errored && !turns[i].timer
        ensures forall j :: i < j < |turns| ==> !(turns[i].throws && turns[j].throws)
      {
        SettledTurn(turns, 1, i);
        forall j | i < j < |turns| ensures !(turns[i].throws && turns[j].throws) {
          if turns[i].throws { SettledTurn(turns, 0, j); }
        }
      }
    } else {
      var last, before := turns[|turns| - 1], turns[..|turns| - 1];
      if !last.errored && !last.timer {
        if last.throws {
          SettledFromExactly(before, k);
          var i :| k <= i < |before| && before[i] != QUIET && before[i] != CANCEL;
          assert turns[i] == before[i] && turns[|turns| - 1] == last;
        } else {
          OneFailureExactly(before, k);
          assert forall i :: 0 <= i < |before| ==> turns[i] == before[i];
        }
      } else {
        assert k <= |turns| - 1 ==> turns[|turns| - 1] == last;
      }
    }
  }

  class ApplyExecution {
    const script: seq<Turn>    // the turns, from the start on; quiet ones follow
    var clock: nat             // the awaits so far
    var row: Status
    var wasCanceled: bool      // a cancel has landed
    var armed: bool            // a work directory removal is scheduled
    var produced: bool         // the apply process left a state file
    var held: bool             // the file's content is in memory
    var saved: bool            // ...in a state version
    var captured: bool         // ...in an encrypted recovery copy
    var dirGone: bool          // the work directory does not exist
    var preserved: bool        // the run is in the set of preserved work directories
    var sweep: Sweep
    var launched: bool         // an apply process of the run was started
    var progressCaptureFailed: bool
    var unattended: bool       // the status read that decides about the state threw, and nothing made up for it
    var skipped: bool          // the state was left alone as the run was canceled, and nothing made up for it

    constructor (script: seq<Turn>)
      ensures Inv() && row.Applying? && !wasCanceled && !produced && !dirGone && !preserved && !armed && !held
      ensures !launched && !progressCaptureFailed && !unattended && !skipped && this.script == script && clock == 0
      ensures !saved && !captured && sweep.NotSwept?
    {
      this.script, clock := script, 0;
      row, wasCanceled, armed, produced, held, saved, captured := Applying, false, false, false, false, false, false;
      dirGone, preserved, sweep := false, false, NotSwept;
      launched, progressCaptureFailed, unattended, skipped := false, false, false, false;
    }

    predicate Unsaved()
      reads this
    {
      produced && !saved && !captured
    }

    /** The state of a started apply is gone. */
    predicate Lost()
      reads this
    {
      Unsaved() && dirGone
    }

    /** ...through the removal timer: it fired before the state was read, or while it was held
        in memory, and what was held then reached neither a state version nor a copy. */
    predicate LostToTimer()
      reads this
    {
      sweep.SweptUnread? || (sweep.SweptWhileHeld? && !saved && !captured)
    }

    /** A removal that failed is scheduled again and will not be spared. */
    predicate Doomed()
      reads this
    {
      Unsaved() && !dirGone && armed && !preserved
    }

    /** Holds at every await, so also wherever the process may die. */
    predicate Inv()
      reads this
    {
      && (Lost() ==> !sweep.NotSwept?)
      && (sweep.SweptUnread? || sweep.CleanedUnread? ==> Lost() && !held)
      && (!sweep.NotSwept? ==> produced && dirGone)
      && (held || saved || captured ==> produced) && (produced || preserved ==> launched)
      && (row.Canceled? ==> wasCanceled)
      && (skipped ==> Stopped() && wasCanceled)
    }

    /** The run is over without having been applied; no write of `applied` or cancel follows. */
    predicate Stopped()
      reads this
    {
      row.Canceled? || row.Errored?
    }

    /** The executor is done with the directory: unsaved state is marked to be spared. */
    predicate Settled()
      reads this
    {
      Unsaved() && sweep.NotSwept? && !unattended && !skipped ==> preserved && !dirGone
    }

    function TurnAt(k: nat): Turn {
      if k < |script| then script[k] else QUIET
    }

    function NextTurn(): Turn
      reads this`clock
    {
      TurnAt(clock)
    }

    /** All turns up to the k-th one are quiet. */
    predicate QuietUntil(k: nat)
      reads this`clock
    {
      clock <= k && forall i :: clock <= i < k ==> TurnAt(i) == QUIET
    }

    /** Nothing but cancels is going to happen, any number of them at any await. */
    predicate Calm()
      reads this`clock
    {
      Mild() && clock >= SettledFrom(script, 0)
    }

    /** ...besides one await that may throw. */
    predicate Mild()
      reads this`clock
    {
      clock >= SettledFrom(script, 1)
    }

    lemma MildTurn(k: nat)
      requires clock <= k
      ensures Calm() ==> !TurnAt(k).throws
      ensures Mild() ==> !TurnAt(k).errored && !TurnAt(k).timer
      ensures Mild() && TurnAt(k).throws ==> SettledFrom(script, 0) <= k + 1
    {
      if k < |script| {
        if Mild() { SettledTurn(script, 1, k); }
        if Calm() { SettledTurn(script, 0, k); }
      }
    }

    /** Nobody has canceled and nothing is going to happen. */
    predicate Uncanceled()
      reads this
    {
      clock >= |script| && !row.Canceled?
    }

    /** ...and no removal is scheduled. */
    predicate Undisturbed()
      reads this
    {
      Uncanceled() && !armed
    }

    /** The next thing to happen is that the removal timer fires in the k-th turn, armed by then. */
    predicate Ambush(k: nat)
      reads this
    {
      && QuietUntil(k) && TurnAt(k).timer && (armed || TurnAt(k).cancel) && !preserved && !dirGone
      && row.Applying?
    }

    /** ...without any cancel, and that is all that happens. */
    predicate UnpromptedAmbush(k: nat)
      reads this
    {
      Ambush(k) && |script| == k + 1 && TurnAt(k) == TIMER
    }

    /** The only thing to happen is that the await of the k-th turn throws. */
    predicate Misread(k: nat)
      reads this
    {
      QuietUntil(k) && |script| == k + 1 && TurnAt(k) == THROW && !armed && row.Applying? && !dirGone
    }

    /** All that happens is a cancel in the k-th turn and, two turns later, the errored write. */
    predicate Overwriting(k: nat)
      reads this
    {
      && QuietUntil(k) && |script| == k + 3 && TurnAt(k) == CANCEL && TurnAt(k + 1) == QUIET && TurnAt(k + 2) == ERROR
      && row.Applying? && !dirGone
    }

    /** The cancel has landed, and the state was left alone. */
    predicate Withdrawn()
      reads this
    {
      row.Canceled? && skipped && Unsaved() && !dirGone
    }

    /** Removal of the work directory by the scheduled timer. */
    method FireTimer()
      requires Inv() && armed
      modifies this`armed, this`dirGone, this`sweep
      ensures Inv() && !armed
      ensures dirGone == (old(dirGone) || !preserved)
      ensures sweep == if !dirGone || old(dirGone) || !Unsaved() then old(sweep)
                       else if held then SweptWhileHeld else SweptUnread
    {
      armed := false;
      if !preserved && !dirGone {
        dirGone := true;
        if Unsaved() { sweep := if held then SweptWhileHeld else SweptUnread; }
      }
    }

    /** A cancel lands, or the forced one that may follow it; an ended run refuses both. */
    predicate Cancels()
      reads this
    {
      NextTurn().cancel && (row.Applying? || row.Canceled?)
    }

    /** The next turn happens. */
    method TakeTurn() returns (throws: bool)
      requires Inv()
      modifies this`clock, this`row, this`wasCanceled, this`armed, this`dirGone, this`sweep
      ensures Inv() && TurnTaken(throws)
    {
      var turn, cancels := NextTurn(), Cancels();
      clock := clock + 1;
      if cancels { row, wasCanceled, armed := Canceled, true, true; }
      if turn.errored { row := Errored; }
      if turn.timer && armed { FireTimer(); }
      throws := turn.throws;
    }

    /** All that one turn changes. */
    twostate predicate TurnTaken(throws: bool)
      reads this
    {
      && throws == old(NextTurn()).throws && clock == old(clock) + 1
      && old(Cancels()) == (old(NextTurn()).cancel && old(row) in {Applying, Canceled})
      && (row == if old(NextTurn()).errored then Errored else if old(Cancels()) then Canceled else old(row))
      && wasCanceled == (old(wasCanceled) || old(Cancels()))
      && armed == (old(armed || Cancels()) && !old(NextTurn()).timer)
      && dirGone == (old(dirGone) || (old(armed || Cancels()) && old(NextTurn()).timer && !preserved))
      && (sweep == if dirGone == old(dirGone) || !Unsaved() then old(sweep)
                   else if held then SweptWhileHeld else SweptUnread)
    }

    /** One await: the next turn happens meanwhile. */
    method Await() returns (throws: bool)
      requires Inv()
      modifies this`clock, this`row, this`wasCanceled, this`armed, this`dirGone, this`sweep
      ensures Inv() && Waited() && Failed(throws) && TurnTaken(throws)
    {
      MildTurn(clock);
      throws := TakeTurn();
    }

    /** What no await undoes, and who alone writes `applied`. */
    twostate predicate Later()
      reads this
    {
      Onward() && (row.Applied? ==> old(row).Applied?)
    }

    /** ...and that awaits alone change the run in mild times by cancels only. */
    twostate predicate Waited()
      reads this
    {
      Later() && (old(Mild()) ==> OnlyCanceled())
    }

    /** The run is as it was, or it was still applying and has been canceled. */
    twostate predicate OnlyCanceled()
      reads this
    {
      && (row == old(row) || (old(row).Applying? && row.Canceled?))
      && wasCanceled == (old(wasCanceled) || row.Canceled?)
    }

    /** A throw in calm times, or a second one in mild times, does not happen. */
    twostate predicate Failed(threw: bool)
      reads this
    {
      threw ==> !old(Calm()) && (old(Mild()) ==> Calm())
    }

    /** ...and that only an armed timer and a cancel bring loss. */
    twostate predicate Onward()
      reads this
    {
      && (old(Stopped()) ==> Stopped()) && (old(wasCanceled) ==> wasCanceled) && (old(Uncanceled()) ==> Uncanceled())
      && (armed ==> old(armed) || wasCanceled)
      && (old(dirGone) ==> dirGone) && preserved == old(preserved) && produced == old(produced)
      && (old(saved) ==> saved) && (old(captured) ==> captured)
      && (!old(sweep).NotSwept? ==> sweep == old(sweep)) && (sweep.CleanedUnread? ==> old(sweep).CleanedUnread?)
      && (old(sweep).NotSwept? && !sweep.NotSwept? ==> old(armed) || wasCanceled)
      && (dirGone && !old(dirGone) && Unsaved() ==> !sweep.NotSwept?)
      && (old(Undisturbed()) ==> Undisturbed() && dirGone == old(dirGone) && sweep == old(sweep))
      && clock >= old(clock) && (old(Mild()) ==> dirGone == old(dirGone) && sweep == old(sweep))
    }

    /** Reads the run's status, which may fail. */
    method RunWasCanceled() returns (threw: bool, r: bool)
      requires Inv()
      modifies this`clock, this`row, this`wasCanceled, this`armed, this`dirGone, this`sweep
      ensures Inv() && Waited() && Failed(threw)
      ensures threw == old(NextTurn()).throws && r == (!threw && row.Canceled?)
      ensures old(Misread(clock)) ==> Undisturbed() && dirGone == old(dirGone) && sweep == old(sweep)
      ensures clock == old(clock) + 1
      ensures !old(NextTurn()).timer ==> dirGone == old(dirGone) && (armed == old(armed) || old(NextTurn()).cancel)
      ensures row == if old(NextTurn()).errored then Errored else if old(Cancels()) then Canceled else old(row)
    {
      threw := Await();
      r := !threw && row.Canceled?;
    }

    /** Reads the state file into memory. */
    method ReadState() returns (threw: bool)
      requires Inv() && produced && !dirGone && !held
      modifies this`clock, this`row, this`wasCanceled, this`armed, this`dirGone, this`sweep, this`held
      ensures Inv() && Waited() && Failed(threw) && held == !threw
    {
      threw := Await();
      threw := threw || dirGone;
      held := !threw;
    }

    /** Encrypts what was read into the recovery area. */
    method CopyState() returns (threw: bool)
      requires Inv() && held
      modifies this`clock, this`row, this`wasCanceled, this`armed, this`dirGone, this`sweep, this`held, this`captured
      ensures Inv() && Waited() && Failed(threw) && !held && captured == (old(captured) || !threw)
    {
      threw := Await();
      if !threw { captured := true; }
      held := false;
    }

    /** The state file, if there is one, is in a state version. */
    predicate Stored()
      reads this
    {
      produced && !dirGone ==> saved
    }

    /** Stores what was read from the state file, unless the run was canceled meanwhile. */
    method StoreState() returns (threw: bool)
      requires Inv() && held
      modifies this`clock, this`row, this`wasCanceled, this`armed, this`dirGone, this`sweep, this`held, this`saved,
               this`skipped
      ensures Inv() && Waited() && !held && Failed(threw)
      ensures !threw ==> saved || skipped
      ensures (old(skipped) ==> skipped) && (threw ==> skipped == old(skipped))
      ensures !threw && !row.Canceled? ==> saved && skipped == old(skipped)
      ensures saved && !old(saved) ==> !threw && clock == old(clock) + 2 && !old(TurnAt(clock + 1)).throws
      ensures old(Mild() && row.Canceled?) ==> saved == old(saved)
    {
      var stop: bool;
      threw, stop := RunWasCanceled();
      if stop { skipped := true; }
      if !threw && !stop {
        threw := Await();
        if !threw { saved := true; }
      }
      held := false;
    }

    /** Saves the state file as a state version. It returns without a word when the run was
        canceled or there is no file. */
    method SaveStateVersion() returns (threw: bool)
      requires Inv() && !held
      modifies this`clock, this`row, this`wasCanceled, this`armed, this`dirGone, this`sweep, this`held, this`saved,
               this`skipped
      ensures Inv() && Waited() && !held
      ensures !threw ==> !Unsaved() || skipped || dirGone
      ensures (old(skipped) ==> skipped) && (threw ==> skipped == old(skipped))
      ensures Failed(threw) && (old(NextTurn()).throws ==> threw && clock == old(clock) + 1)
      ensures !threw && !row.Canceled? ==> Stored() && skipped == old(skipped)
      ensures threw ==> saved == old(saved)
      ensures old(Mild() && row.Canceled?) ==> saved == old(saved)
      ensures old(Unsaved() && Overwriting(clock)) ==> !threw && Withdrawn() && clock == old(clock) + 1
    {
      var stop: bool;
      threw, stop := RunWasCanceled();
      if stop { skipped := true; }
      if !threw && !stop { threw := StoreFile(); }
    }

    /** Looks for the state file, reads it and stores it. */
    method StoreFile() returns (threw: bool)
      requires Inv() && !held
      modifies this`clock, this`row, this`wasCanceled, this`armed, this`dirGone, this`sweep, this`held, this`saved,
               this`skipped
      ensures Inv() && Waited() && Failed(threw) && !held
      ensures !threw ==> !Unsaved() || skipped || dirGone
      ensures (old(skipped) ==> skipped) && (threw ==> skipped == old(skipped) && saved == old(saved))
      ensures !threw && !row.Canceled? ==> Stored() && skipped == old(skipped)
      ensures old(Mild() && row.Canceled?) ==> saved == old(saved)
    {
      threw := false;
      var _ := Await();
      if !produced || dirGone { return; }
      threw := ReadState();
      if !threw { threw := StoreState(); }
    }

    /** Copies the state file into the recovery area. Without a file there is nothing to do;
        with one that could not be copied it fails. */
    method CaptureState() returns (r: Capture)
      requires Inv() && !held
      modifies this`clock, this`row, this`wasCanceled, this`armed, this`dirGone, this`sweep, this`held, this`captured
      ensures Inv() && Waited() && !held
      ensures captured == (old(captured) || r.Copied?)
      ensures old(NextTurn()).throws ==> r == CaptureFailed
      ensures r.NoSource? && produced ==> dirGone
      ensures old(Calm()) ==> !r.CaptureFailed?
    {
      var threw := Await();
      if threw { return CaptureFailed; }
      if !produced || dirGone { return NoSource; }
      threw := ReadState();
      if !threw { threw := CopyState(); }
      r := if threw then CaptureFailed else Copied;
    }

    /** After a failed save: the only other place for the state is a recovery copy. */
    method TryCapture() returns (captureFailed: bool)
      requires Inv() && !held
      modifies this`clock, this`row, this`wasCanceled, this`armed, this`dirGone, this`sweep, this`held, this`captured
      ensures Inv() && Waited() && !held
      ensures captureFailed || (produced && !dirGone ==> captured)
      ensures old(Calm()) ==> !captureFailed
    {
      var r := CaptureState();
      captureFailed := r.CaptureFailed?;
    }

    /** Either the state is accounted for, or it was left alone as the run was canceled. */
    predicate Accounted(captureFailed: bool)
      reads this
    {
      captureFailed || !Unsaved() || skipped || dirGone
    }

    method SaveOrCapture() returns (threw: bool, captureFailed: bool)
      requires Inv() && !held
      modifies this`clock, this`row, this`wasCanceled, this`armed, this`dirGone, this`sweep, this`held, this`saved,
               this`captured, this`skipped
      ensures Inv() && Waited() && !held && Accounted(captureFailed)
      ensures !threw ==> !captureFailed && captured == old(captured)
      ensures (old(skipped) ==> skipped) && (threw ==> skipped == old(skipped))
      ensures threw && !captureFailed ==> (produced && !dirGone ==> captured)
      ensures !threw && !row.Canceled? ==> Stored() && skipped == old(skipped)
      ensures Failed(threw) && (old(Mild()) ==> !captureFailed)
      ensures old(Mild() && row.Canceled?) ==> saved == old(saved)
      ensures old(Unsaved() && Overwriting(clock)) ==> !threw && Withdrawn() && clock == old(clock) + 1
    {
      captureFailed := false;
      threw := SaveStateVersion();
      if threw { captureFailed := TryCapture(); }
    }

    /** What the outcome of an apply says about the state. */
    predicate Tells(o: Outcome)
      reads this
    {
      match o
      case CanceledRun(captureFailed) => captureFailed || !Unsaved() || dirGone
      case ApplyFailed(captureFailed) => Accounted(captureFailed)
      case SaveFailed(captureFailed) => Accounted(captureFailed)
      case Completed => !Unsaved() || skipped || dirGone
      case Thrown => Accounted(progressCaptureFailed) || unattended
    }

    predicate CaptureFailedIn(o: Outcome) {
      !o.Completed? && !o.Thrown? && o.captureFailed
    }

    /** The outcome that belongs to the process's exit and to the status read after it. */
    predicate OutcomeFits(exit: Exit, stop: bool, o: Outcome) {
      match exit
      case Exceptional => o.Thrown?
      case Failure => if stop then o.CanceledRun? else o.ApplyFailed?
      case Success => if stop then o.CanceledRun? else o.Completed? || o.SaveFailed?
    }

    /** Accounts for the state file of a process that ended, of a run found canceled or not. */
    method AccountForState(exit: Exit, stop: bool) returns (o: Outcome)
      requires Inv() && !held && !progressCaptureFailed && !unattended && !skipped && (stop ==> row.Canceled?)
      modifies this`clock, this`row, this`wasCanceled, this`armed, this`dirGone, this`sweep, this`held, this`saved,
               this`captured, this`progressCaptureFailed, this`skipped
      ensures Inv() && Waited() && !held && Tells(o)
      ensures (o.CanceledRun? ==> !skipped) && (progressCaptureFailed ==> o.Thrown?)
      ensures OutcomeFits(exit, stop, o) && (exit.Exceptional? && stop ==> clock == old(clock))
      ensures old(Calm()) ==> !progressCaptureFailed && !CaptureFailedIn(o) && !o.SaveFailed?
      ensures old(Calm()) && !row.Canceled? ==> Stored() && captured == old(captured)
      ensures old(Calm() && !captured) && captured ==> o.CanceledRun?
      ensures old(Mild()) && !stop ==> !progressCaptureFailed && !CaptureFailedIn(o) && (o.SaveFailed? ==> Calm())
      ensures old(Mild()) && !row.Canceled? ==> !skipped && (!Unsaved() || dirGone)
      ensures exit.Success? && !stop && old(Unsaved() && Overwriting(clock)) ==>
        o.Completed? && Withdrawn() && clock == old(clock) + 1
    {
      if exit.Exceptional? {
        if stop {
          skipped := true;
        } else {
          var _, captureFailed := SaveOrCapture();
          progressCaptureFailed := captureFailed;
        }
        return Thrown;
      }
      if stop {
        var captureFailed := TryCapture();
        return CanceledRun(captureFailed);
      }
      var failed, captureFailed := SaveOrCapture();
      o := if exit.Failure? then ApplyFailed(captureFailed)
           else if failed then SaveFailed(captureFailed)
           else Completed;
    }

    /** The process's exit, and the status read right after it. */
    method AwaitExit() returns (threw: bool, stop: bool)
      requires Inv()
      modifies this`clock, this`row, this`wasCanceled, this`armed, this`dirGone, this`sweep
      ensures Inv() && Waited() && Failed(threw) && clock == old(clock) + 2
      ensures threw == old(TurnAt(clock + 1)).throws && stop == (!threw && row.Canceled?)
      ensures old(Unsaved() && !held && Ambush(clock)) ==> sweep.SweptUnread?
      ensures old(UnpromptedAmbush(clock)) ==> Uncanceled()
      ensures old(Misread(clock + 1)) ==> threw && Undisturbed() && !dirGone
      ensures old(Overwriting(clock + 2)) ==> !threw && !stop && Overwriting(clock) && clock == old(clock) + 2
    {
      var _ := Await();
      threw, stop := RunWasCanceled();
    }

    /** What there is to say of the outcome in mild and in calm times. */
    twostate predicate MildOutcome(exit: Exit, o: Outcome)
      reads this
    {
      && (old(Mild()) && o.CanceledRun? ==> row.Canceled?)
      && (unattended ==> Failed(true) && saved == old(saved) && captured == old(captured) && !skipped)
      && (old(Mild()) && !unattended && !row.Canceled? ==> OutcomeFits(exit, false, o))
      && (old(Calm()) ==> !progressCaptureFailed && !CaptureFailedIn(o) && !o.SaveFailed?)
      && (old(Calm()) && !row.Canceled? ==> Stored() && captured == old(captured))
      && (old(Calm() && !captured) && captured ==> o.CanceledRun?)
      && (old(Mild()) && o.SaveFailed? ==> Calm())
      && (old(Mild()) && !row.Canceled? ==>
            !skipped && !progressCaptureFailed && !CaptureFailedIn(o) && (unattended || !Unsaved() || dirGone))
    }

    /** Waits for the process and accounts for its state file. The status read right after the
        exit decides what to do; when it throws, nothing is done. */
    method WaitForExit(exit: Exit) returns (o: Outcome)
      requires Inv() && !held && !progressCaptureFailed && !unattended && !skipped
      modifies this`clock, this`row, this`wasCanceled, this`armed, this`dirGone, this`sweep, this`held, this`saved,
               this`captured, this`progressCaptureFailed, this`unattended, this`skipped
      ensures Inv() && Waited() && !held && Tells(o)
      ensures (o.CanceledRun? ==> !skipped) && (progressCaptureFailed ==> o.Thrown?)
      ensures unattended ==> o.Thrown? && !progressCaptureFailed
      ensures MildOutcome(exit, o)
      ensures unattended == old(TurnAt(clock + 1)).throws
      ensures old(Unsaved() && Ambush(clock)) ==> sweep.SweptUnread?
      ensures old(UnpromptedAmbush(clock)) ==> Uncanceled()
      ensures old(Misread(clock + 1)) ==>
        o.Thrown? && unattended && Undisturbed() && !dirGone && saved == old(saved) && captured == old(captured)
      ensures exit.Success? && old(Unsaved() && Overwriting(clock + 2)) ==>
        o.Completed? && Withdrawn() && clock == old(clock) + 3
    {
      var threw, stop := AwaitExit();
      if threw {
        unattended := true;
        return Thrown;
      }
      o := AccountForState(exit, stop);
    }

    /** The last policy check and the start of the process. */
    method Spawn(leavesState: bool) returns (threw: bool)
      requires Inv() && !held && !launched
      modifies this`clock, this`row, this`wasCanceled, this`armed, this`dirGone, this`sweep, this`launched,
               this`produced
      ensures Inv() && (old(wasCanceled) ==> wasCanceled) && (old(Uncanceled()) ==> Uncanceled())
      ensures (row.Applied? ==> old(row).Applied?) && (armed ==> old(armed) || wasCanceled)
      ensures launched == !threw && produced == (!threw && leavesState) && (!threw ==> !dirGone)
      ensures !saved && !captured && old(clock) <= clock <= old(clock) + 2 && (!threw ==> clock == old(clock) + 2)
      ensures !old(dirGone) ==> Failed(threw)
      ensures old(NextTurn().throws || TurnAt(clock + 1).throws) ==> threw
      ensures old(Mild()) ==> OnlyCanceled() && dirGone == old(dirGone) && sweep == old(sweep)
      ensures old(Ambush(clock + 2)) ==> !threw && Ambush(clock) && clock == old(clock) + 2
      ensures old(Misread(clock + 3)) ==> !threw && Misread(clock + 1)
      ensures old(Overwriting(clock + 4)) ==> !threw && Overwriting(clock + 2) && clock == old(clock) + 2
    {
      threw := Await();
      if threw { return; }
      threw := Await();
      if threw || dirGone { return true; }
      launched, produced := true, leavesState;
    }

    /** Starts the process and waits for it. The state file is there from the start on, as the
        process writes it along the way. */
    method SpawnAndWait(leavesState: bool, exit: Exit) returns (o: Outcome)
      requires Inv() && !held && !launched && !progressCaptureFailed && !unattended && !skipped
      modifies this
      ensures Inv() && !held && Tells(o)
      ensures (o.CanceledRun? ==> !skipped) && (progressCaptureFailed ==> o.Thrown?)
      ensures progressCaptureFailed || CaptureFailedIn(o) ==> launched
      ensures unattended ==> o.Thrown? && !progressCaptureFailed
      ensures (old(wasCanceled) ==> wasCanceled) && (old(Uncanceled()) ==> Uncanceled())
      ensures row.Applied? ==> old(row).Applied?
      ensures !preserved && !sweep.CleanedUnread? && (!sweep.NotSwept? || armed ==> old(armed) || wasCanceled)
      ensures clock >= old(clock) && (old(Mild()) ==> OnlyCanceled() && dirGone == old(dirGone) && sweep == old(sweep))
      ensures !launched ==> o.Thrown? && !unattended && !skipped && !produced && (!old(dirGone) ==> Failed(true))
      ensures launched ==> produced == leavesState && unattended == old(TurnAt(clock + 3)).throws
      ensures launched ==> MildOutcome(exit, o)
      ensures old(Mild() && !dirGone && TurnAt(clock + 3).throws) ==> launched
      ensures leavesState && old(Ambush(clock + 2)) ==> sweep.SweptUnread?
      ensures old(UnpromptedAmbush(clock + 2)) ==> Uncanceled()
      ensures leavesState && old(Misread(clock + 3)) ==>
        o.Thrown? && unattended && Undisturbed() && Unsaved() && !dirGone
      ensures leavesState && exit.Success? && old(Overwriting(clock + 4)) ==>
        o.Completed? && Withdrawn() && clock == old(clock) + 5
    {
      ghost var k := clock + 3;
      var threw := Spawn(leavesState);
      MildTurn(k);
      if threw { return Thrown; }
      o := WaitForExit(exit);
    }

    /** The write of `applied`, refused for a canceled or errored run, and the post-apply stage after it. */
    method CompleteApply() returns (threw: bool)
      requires Inv() && !held && !row.Applied?
      modifies this`clock, this`row, this`wasCanceled, this`armed, this`dirGone, this`sweep
      ensures Inv() && Onward()
      ensures !threw ==> old(row).Applying? && (row.Applied? || row.Errored?)
      ensures row.Applied? ==> old(row).Applying?
      ensures old(Calm()) ==> threw == !row.Applied?
      ensures row.Applied? ==> clock == old(clock) + 2 && threw == old(TurnAt(clock + 1)).throws
      ensures old(Mild()) ==> wasCanceled == (old(wasCanceled) || row.Canceled?)
      ensures old(Mild() && !row.Applying?) ==> row == old(row)
      ensures old(Mild() && row.Applying?) ==> !row.Errored? && (threw && !row.Canceled? ==> Failed(threw))
      ensures old(Withdrawn() && NextTurn() == QUIET) ==> threw && Withdrawn() && clock == old(clock) + 1
    {
      threw := Await();
      if threw || !row.Applying? { return true; }
      row := Applied;
      threw := Await();
    }

    /** The preparation of an apply and the status read after it; before a binary runs, the
        work directory has been found or made. */
    method Prepare(engine: Engine) returns (threw: bool, stop: bool)
      requires Inv() && !held && !launched
      modifies this`clock, this`row, this`wasCanceled, this`armed, this`dirGone, this`sweep
      ensures Inv() && (old(wasCanceled) ==> wasCanceled) && (armed ==> old(armed) || wasCanceled)
      ensures old(Uncanceled()) ==> Uncanceled()
      ensures row.Applied? ==> old(row).Applied?
      ensures old(clock) <= clock <= old(clock) + 2 && (!threw ==> clock == old(clock) + 2 && stop == row.Canceled?)
      ensures Failed(threw) && (old(Mild()) ==> OnlyCanceled() && sweep == old(sweep))
      ensures (threw ==> !stop) && (old(NextTurn().throws || TurnAt(clock + 1).throws) ==> threw)
      ensures !engine.Binary? && old(dirGone) ==> dirGone
      ensures old(Calm() && row.Applying? && (NextTurn().cancel || TurnAt(clock + 1).cancel)) ==> stop
      ensures engine.Binary? && !threw && old(Mild()) ==> !dirGone
      ensures engine.Binary? && old(Ambush(clock + 4)) ==> !threw && !stop && Ambush(clock + 2)
      ensures engine.Binary? && old(UnpromptedAmbush(clock + 4)) ==> UnpromptedAmbush(clock + 2)
      ensures engine.Binary? && old(Misread(clock + 5)) ==> !threw && !stop && Misread(clock + 3)
      ensures engine.Binary? && old(Overwriting(clock + 6)) ==> !threw && !stop && Overwriting(clock + 4)
    {
      stop := false;
      threw := Await();
      if threw { return; }
      if engine.Binary? { dirGone := false; }
      threw, stop := RunWasCanceled();
    }

    /** Where an apply is after its outcome when nothing but cancels happened. */
    predicate CalmEnd(engine: Engine, threw: bool, success: bool)
      reads this
    {
      && Calm() && !progressCaptureFailed && !unattended && wasCanceled == row.Canceled?
      && (launched ==> engine.Binary? && produced == engine.leavesState)
      && (Unsaved() ==> threw && skipped && !dirGone) && (captured ==> !threw)
      && if row.Canceled? then !success
         else match engine
           case Preflight => threw && row.Applying? && !launched
           case Simulated => success && row.Applied?
           case Binary(_, exit) =>
             && launched && Stored() && !captured && !dirGone && threw == !success
             && success == exit.Success? && row == if success then Applied else Applying
    }

    /** ...when one await at most threw, too, and nobody canceled. */
    predicate MildEnd(engine: Engine, threw: bool, misread: bool)
      requires engine.Binary?
      reads this
    {
      && Mild() && !skipped && !progressCaptureFailed && (row.Applying? || row.Applied?)
      && (launched ==> produced == engine.leavesState && unattended == misread)
      && (misread ==> launched)
      && (unattended ==> threw && Calm() && !saved && !captured && !dirGone)
      && (!unattended ==> !Unsaved())
    }

    /** One apply up to its outcome. A normal return says whether the run was canceled. */
    method RunSequence(engine: Engine) returns (threw: bool, success: bool)
      requires Inv() && !held && !launched && !row.Applied?
      requires !progressCaptureFailed && !unattended && !skipped
      modifies this
      ensures Inv() && !held && !preserved && (old(wasCanceled) ==> wasCanceled)
      ensures progressCaptureFailed ==> launched
      ensures success ==> !threw && !skipped && (!Unsaved() || dirGone)
      ensures skipped ==> threw
      ensures !threw && !success ==> progressCaptureFailed || !Unsaved() || dirGone
      ensures unattended ==> threw && !progressCaptureFailed
      ensures threw ==> Accounted(progressCaptureFailed) || unattended
      ensures row.Applied? ==> !Unsaved() || dirGone
      ensures old(Uncanceled()) ==> Uncanceled()
      ensures !sweep.CleanedUnread? && (!sweep.NotSwept? || armed ==> old(armed) || wasCanceled)
      ensures engine.Binary? && engine.leavesState && old(Ambush(clock + 4)) ==> sweep.SweptUnread?
      ensures engine.Binary? && old(UnpromptedAmbush(clock + 4)) ==> Uncanceled()
      ensures engine.Binary? && engine.leavesState && old(Misread(clock + 5)) ==>
        unattended && Undisturbed() && Unsaved() && !dirGone
      ensures old(NextTurn().throws || TurnAt(clock + 1).throws) ==> threw && !launched
      ensures engine.Binary? && old(Calm() && row.Applying? && (NextTurn().cancel || TurnAt(clock + 1).cancel)) ==>
        !launched && !threw && !success
      ensures old(Calm() && row.Applying? && !wasCanceled) ==> CalmEnd(engine, threw, success)
      ensures engine.Binary? && old(Mild() && row.Applying? && !wasCanceled) && !wasCanceled ==>
        MildEnd(engine, threw, old(TurnAt(clock + 5)).throws)
      ensures engine.Binary? && engine.leavesState && engine.exit.Success? && old(Overwriting(clock + 6)) ==>
        threw && Withdrawn() && !unattended && !progressCaptureFailed && clock + 1 == |script|
    {
      success := false;
      ghost var k := clock + 5;
      var stop: bool;
      threw, stop := Prepare(engine);
      MildTurn(k);
      if threw { return; }
      var o: Outcome;
      match engine {
        case Preflight => return true, false;
        case Simulated => o := Completed;
        case Binary(leavesState, exit) =>
          if stop { return false, false; }
          o := SpawnAndWait(leavesState, exit);
      }
      if CaptureFailedIn(o) { progressCaptureFailed := true; }
      match o {
        case CanceledRun(_) => return false, false;
        case Completed =>
          threw := CompleteApply();
          success := !threw;
        case _ => threw := true;
      }
    }

    /** A removal that fails is scheduled again. It asks nobody whether the state is safe. */
    method RemoveDir() returns (removed: bool)
      requires Inv() && !held
      modifies this`clock, this`row, this`wasCanceled, this`armed, this`dirGone, this`sweep
      ensures Inv() && removed == !old(NextTurn()).throws
      ensures removed ==> dirGone && (armed ==> old(armed) || wasCanceled)
      ensures !removed ==> armed
      ensures removed && old(Undisturbed()) ==> Undisturbed()
      ensures clock == old(clock) + 1
      ensures (old(wasCanceled) ==> wasCanceled) && (row.Applied? ==> old(row).Applied?)
      ensures !old(NextTurn()).cancel ==> wasCanceled == old(wasCanceled)
      ensures old(NextTurn()) == THROW ==> row == old(row)
      ensures old(Uncanceled()) ==> Uncanceled()
      ensures Failed(!removed) && (old(Mild()) ==> OnlyCanceled())
      ensures removed && old(Unsaved() && !dirGone) && !old(NextTurn()).timer ==> sweep.CleanedUnread?
      ensures (old(dirGone) ==> dirGone) && (dirGone && !removed && !old(dirGone) ==> old(NextTurn()).timer)
      ensures Lost() ==> old(Unsaved())
      ensures old(sweep).NotSwept? && !sweep.NotSwept? ==> old(Unsaved() && !dirGone)
      ensures !old(sweep).NotSwept? ==> sweep == old(sweep)
      ensures sweep.SweptUnread? || sweep.SweptWhileHeld? ==> !old(sweep).NotSwept? || old(armed) || wasCanceled
      ensures sweep.CleanedUnread? && old(sweep).NotSwept? ==> removed
    {
      var threw := Await();
      if threw {
        armed := true;
      } else {
        if Unsaved() && !dirGone { sweep := CleanedUnread; }
        dirGone := true;
      }
      removed := !threw;
    }

    /** Removes the work directory, or marks it to be spared when a recovery copy failed. */
    method FinalizeWorkDir(success: bool, captureFailed: bool)
      requires Inv() && !held && !preserved && sweep != CleanedUnread
      requires if success then !Unsaved() || dirGone else Accounted(captureFailed) || unattended
      requires captureFailed ==> launched
      modifies this`clock, this`row, this`wasCanceled, this`armed, this`dirGone, this`sweep, this`preserved
      ensures Inv() && Settled()
      ensures preserved == (!success && captureFailed)
      ensures (old(wasCanceled) ==> wasCanceled) && (old(Uncanceled()) ==> Uncanceled())
      ensures row.Applied? ==> old(row).Applied?
      ensures sweep.CleanedUnread? ==> !success && (unattended || skipped) && !captureFailed
      ensures LostToTimer() && old(sweep).NotSwept? ==> old(armed) || wasCanceled
      ensures !old(sweep).NotSwept? ==> sweep == old(sweep)
      ensures (unattended || skipped) && Unsaved() && !preserved ==> dirGone || armed
      ensures !success && !captureFailed && old(Undisturbed()) ==> dirGone && Undisturbed()
      ensures !success && !captureFailed && old(Undisturbed() && Unsaved() && !dirGone) ==> sweep.CleanedUnread?
      ensures (success || !captureFailed) && old(Calm()) ==> dirGone
      ensures !success && !captureFailed && old(Calm() && Unsaved() && !dirGone) ==> sweep.CleanedUnread?
      ensures old(Mild()) ==> OnlyCanceled()
    {
      if !success && captureFailed {
        preserved := true;
      } else {
        MildTurn(clock);
        var _ := RemoveDir();
      }
    }

    /** What follows a throw: the capture for a run canceled in the meantime, or the error report. */
    method HandleFailure() returns (captureFailed: bool)
      requires Inv() && !held && (progressCaptureFailed ==> launched)
      requires Accounted(progressCaptureFailed) || unattended
      modifies this`clock, this`row, this`wasCanceled, this`armed, this`dirGone, this`sweep, this`held, this`captured,
               this`unattended, this`skipped
      ensures Inv() && Later() && !held && (captureFailed ==> launched)
      ensures Accounted(captureFailed) || unattended
      ensures old(Undisturbed()) ==> captureFailed == progressCaptureFailed && unattended == old(unattended)
      ensures old(Undisturbed()) ==> captured == old(captured)
      ensures old(NextTurn()).throws ==> unattended && clock == old(clock) + 1
      ensures old(Calm()) && !progressCaptureFailed ==>
        && !captureFailed && (unattended ==> old(unattended)) && wasCanceled == (old(wasCanceled) || row.Canceled?)
        && (old(row).Canceled? ==> row.Canceled? && (launched ==> !Unsaved() || dirGone))
        && (old(row).Applying? ==> row.Errored? || row.Canceled?)
      ensures old(Mild()) && !wasCanceled ==>
        && captureFailed == progressCaptureFailed && captured == old(captured) && skipped == old(skipped)
        && (old(unattended) ==> unattended) && (old(Calm()) ==> unattended == old(unattended))
      ensures !progressCaptureFailed &&
              old(Withdrawn() && !unattended && NextTurn() == ERROR && clock + 1 == |script|) ==>
        !captureFailed && skipped && !unattended && Unsaved() && clock >= |script| && !dirGone
    {
      captureFailed := progressCaptureFailed;
      var unread, stop := RunWasCanceled();
      if unread {
        unattended := true;
      } else if stop {
        captureFailed := MakeUp();
      } else {
        ReportFailure();
      }
    }

    /** The capture for a run found canceled makes up for whatever was left alone. */
    method MakeUp() returns (captureFailed: bool)
      requires Inv() && !held && (progressCaptureFailed ==> launched)
      modifies this`clock, this`row, this`wasCanceled, this`armed, this`dirGone, this`sweep, this`held, this`captured,
               this`unattended, this`skipped
      ensures Inv() && Waited() && !held && !unattended && !skipped && Accounted(captureFailed)
      ensures captureFailed ==> launched && (progressCaptureFailed || !old(Calm()))
      ensures progressCaptureFailed ==> captureFailed && clock == old(clock)
    {
      captureFailed := progressCaptureFailed;
      if !captureFailed && launched { captureFailed := TryCapture(); }
      unattended, skipped := false, false;
    }

    /** The run is marked errored, unless that is refused or fails. */
    method ReportFailure()
      requires Inv() && !held
      modifies this`clock, this`row, this`wasCanceled, this`armed, this`dirGone, this`sweep
      ensures Inv() && Later()
      ensures clock > old(clock)
      ensures old(clock) >= |script| ==> armed == old(armed) && dirGone == old(dirGone)
      ensures old(Mild()) ==> wasCanceled == (old(wasCanceled) || row.Canceled?)
      ensures old(Calm() && row.Applying?) ==> row.Errored? || row.Canceled?
      ensures old(NextTurn()).throws ==>
        clock == old(clock) + 1 && (row.Errored? ==> old(row.Errored? || NextTurn().errored))
      ensures old(row.Errored? && !NextTurn().throws) ==> clock == old(clock) + 2
    {
      var failed := Await();
      if !failed && (row.Applying? || row.Errored?) {
        row := Errored;
        var _ := Await();
      }
    }

    /** The sequence and, after a throw, what follows that. */
    method RunOrReport(engine: Engine) returns (success: bool, captureFailed: bool)
      requires Inv() && !held && !launched && !row.Applied?
      requires !progressCaptureFailed && !unattended && !skipped
      modifies this
      ensures Inv() && !held && !preserved && !sweep.CleanedUnread? && (captureFailed ==> launched)
      ensures if success then !skipped && (!Unsaved() || dirGone) else Accounted(captureFailed) || unattended
      ensures row.Applied? ==> !Unsaved() || dirGone
      ensures old(Uncanceled()) ==> Uncanceled()
      ensures !sweep.NotSwept? || armed ==> old(armed) || wasCanceled
      ensures engine.Binary? && engine.leavesState && old(Ambush(clock + 4)) ==> sweep.SweptUnread?
      ensures engine.Binary? && old(UnpromptedAmbush(clock + 4)) ==> Uncanceled()
      ensures engine.Binary? && engine.leavesState && old(Misread(clock + 5)) ==>
        unattended && Undisturbed() && Unsaved() && !dirGone && !success && !captureFailed
      ensures engine.Binary? && engine.leavesState && engine.exit.Success? && old(Overwriting(clock + 6)) ==>
        !success && !captureFailed && skipped && !unattended && Unsaved() && clock >= |script| && !dirGone
      ensures old(Calm() && row.Applying? && !wasCanceled) ==> Calm() && !captureFailed && Concluded(engine)
      ensures engine.Binary? && engine.leavesState && old(Mild() && row.Applying? && !wasCanceled) && !wasCanceled ==>
        && !captureFailed && !skipped
        && if old(TurnAt(clock + 5)).throws then !success && Calm() && Unsaved() && !dirGone else !Unsaved()
    {
      var threw: bool;
      threw, success := RunSequence(engine);
      captureFailed := progressCaptureFailed;
      if threw { captureFailed := HandleFailure(); }
    }

    /** What an apply comes to when nothing but cancels happens: a process that ran has its state
        saved or captured; without a cancel it is saved, and the run is applied exactly if the
        apply succeeded. */
    predicate Concluded(engine: Engine)
      reads this
    {
      && !Unsaved() && (launched ==> engine.Binary? && produced == engine.leavesState)
      && if wasCanceled then row.Canceled?
         else match engine
           case Preflight => row.Errored? && !launched
           case Simulated => row.Applied? && !launched
           case Binary(leavesState, exit) =>
             launched && saved == leavesState && !captured && row == if exit.Success? then Applied else Errored
    }

    /** executeApplyImpl from the apply phase on: the whole sequence, the capture for a run
        canceled in the meantime, and the final cleanup. The state is lost, or its directory
        left to a removal already scheduled, exactly in three cases: the removal timer beat the
        save; the deciding read of the run's status failed; or the state was left alone because
        the run was canceled, and by the time of the last read the cancel had been overwritten. */
    method ExecuteApply(engine: Engine)
      requires Inv() && !held && !launched && !row.Applied?
      modifies this
      ensures Inv() && Settled()
      ensures Lost() || Doomed() <==> LostToTimer() || ((unattended || skipped) && Unsaved() && !preserved)
      ensures Lost() && !unattended && !skipped ==> LostToTimer()
      ensures LostToTimer() ==> old(armed) || wasCanceled
      ensures skipped ==> wasCanceled
      ensures row.Applied? ==> !Unsaved() || LostToTimer()
      ensures old(Uncanceled()) ==> Uncanceled()
      ensures engine.Binary? && engine.leavesState && old(Ambush(clock + 4)) ==> LostToTimer() && Lost()
      ensures engine.Binary? && old(UnpromptedAmbush(clock + 4)) ==> Uncanceled()
      ensures engine.Binary? && engine.leavesState && old(Misread(clock + 5)) ==>
        sweep.CleanedUnread? && Lost() && Undisturbed()
      ensures old(Calm() && row.Applying? && !wasCanceled) ==> Concluded(engine) && dirGone && !preserved
      ensures engine.Binary? && engine.leavesState && old(Mild() && row.Applying? && !wasCanceled) && !wasCanceled ==>
        (Lost() <==> old(TurnAt(clock + 5)).throws)
      ensures engine.Binary? && engine.leavesState && engine.exit.Success? && old(Overwriting(clock + 6)) ==>
        sweep.CleanedUnread? && Lost() && skipped && !unattended
    {
      progressCaptureFailed, unattended, skipped := false, false, false;
      var success, captureFailed := RunOrReport(engine);
      FinalizeWorkDir(success, captureFailed);
    }

    /** The plan's own cleanup, which schedules another one when it fails. After an apply that
        has not left its state alone it loses nothing. */
    method CleanupPlanWorkDir()
      requires Inv() && !held && Settled()
      modifies this`clock, this`row, this`wasCanceled, this`armed, this`dirGone, this`sweep
      ensures Inv() && Settled()
      ensures !unattended && !skipped ==> sweep == old(sweep)
      ensures old(Unsaved() && sweep.NotSwept?) && !unattended && !skipped ==> !dirGone
      ensures !preserved && old(NextTurn()) == THROW ==> row == old(row) && wasCanceled == old(wasCanceled)
      ensures !preserved && old(NextTurn()).throws ==> armed && clock == old(clock) + 1
      ensures !preserved && !old(NextTurn()).throws ==> dirGone
      ensures preserved ==> clock == old(clock) && armed == old(armed) && dirGone == old(dirGone)
      ensures !preserved && old(NextTurn()).throws && !old(NextTurn()).timer ==> dirGone == old(dirGone)
    {
      if !preserved { var _ := RemoveDir(); }
    }

    /** The process dies at some await and another one starts: what was only in its memory,
        the set of preserved directories included, is gone. */
    method Restart()
      requires Inv()
      modifies this`armed, this`held, this`preserved
      ensures Inv() && !armed && !held && !preserved
    {
      armed, held, preserved := false, false, false;
    }

    /** Recovery of an interrupted run, after a restart or after its lease expired on a live
        node. It captures the state if the status it read earlier was `applying`, and only then,
        and its removal does not look at the set of preserved directories: a run read as
        apply-queued whose apply has started since loses its state. */
    method ErrorInterruptedRun(readApplying: bool) returns (threw: bool, removed: bool)
      requires Inv() && !held
      modifies this
      ensures Inv() && produced == old(produced)
      ensures removed ==> !threw && dirGone
      ensures Lost() <==> LostToTimer() || old(sweep).CleanedUnread? || (!readApplying && removed && Unsaved())
      ensures LostToTimer() && old(sweep).NotSwept? ==> old(armed) || wasCanceled
      ensures !readApplying && old(Undisturbed() && !row.Applied?) ==> removed && Unsaved() == old(Unsaved())
      ensures readApplying && old(Calm() && produced && !dirGone) ==> captured
      ensures old(Calm()) ==> removed == row.Errored? && threw == !removed && (!removed ==> dirGone == old(dirGone))
      ensures old(Calm() && row.Applying?) ==> row.Errored? || row.Canceled?
      ensures old(Calm() && (row.Canceled? || row.Applied?)) ==> row == old(row) && threw && !removed
      ensures !readApplying && removed ==> clock == old(clock) + 3
    {
      removed := false;
      var captureFailed := false;
      if readApplying { captureFailed := TryCapture(); }
      threw := Await();
      if threw || row.Canceled? || row.Applied? { return true, false; }
      row := Errored;
      threw := Await();
      if threw { return; }
      if !captureFailed { removed := RemoveDir(); }
    }
  }

  /** Nothing happens: the apply saves its state, and the run is applied if the apply succeeded. */
  method UndisturbedApply(engine: Engine) returns (e: ApplyExecution)
    ensures fresh(e) && e.Inv() && e.dirGone && e.saved == (engine.Binary? && engine.leavesState)
    ensures e.row == match engine
      case Preflight => Errored
      case Simulated => Applied
      case Binary(_, exit) => if exit.Success? then Applied else Errored
  {
    e := new ApplyExecution([]);
    e.ExecuteApply(engine);
  }

  /** A cancel arms the removal timer, and it fires before the stopping apply has read its state. */
  method CancelTimerLosesState(exit: Exit) returns (e: ApplyExecution)
    ensures fresh(e) && e.Inv() && e.Lost() && e.LostToTimer()
  {
    e := new ApplyExecution([QUIET, QUIET, QUIET, QUIET, CANCEL.(timer := true)]);
    e.ExecuteApply(Binary(true, exit));
  }

  /** Nobody cancels: the plan's own cleanup fails and schedules another one, the run is
      confirmed within the six seconds, and the removal hits the apply. */
  method PlanCleanupLosesState(exit: Exit) returns (e: ApplyExecution)
    ensures fresh(e) && e.Inv() && e.Lost() && e.LostToTimer() && !e.row.Canceled?
  {
    e := new ApplyExecution([THROW, QUIET, QUIET, QUIET, QUIET, TIMER]);
    e.CleanupPlanWorkDir();
    e.ExecuteApply(Binary(true, exit));
  }

  /** Nobody cancels and no timer is armed: the one read of the run's status after the process
      exits throws, and the cleanup removes the only copy of the state. */
  method FailedReadLosesState(exit: Exit) returns (e: ApplyExecution)
    ensures fresh(e) && e.Inv() && e.Lost() && e.sweep.CleanedUnread? && !e.row.Canceled? && !e.armed
  {
    e := new ApplyExecution([QUIET, QUIET, QUIET, QUIET, QUIET, THROW]);
    e.ExecuteApply(Binary(true, exit));
  }

  /** No read fails and no timer fires: the save finds the run canceled and leaves the state to
      the capture, and the errored write lands before the read that would call for it. */
  method OverwrittenCancelLosesState() returns (e: ApplyExecution)
    ensures fresh(e) && e.Inv() && e.Lost() && e.sweep.CleanedUnread? && e.skipped && !e.unattended
  {
    e := new ApplyExecution([QUIET, QUIET, QUIET, QUIET, QUIET, QUIET, CANCEL, QUIET, ERROR]);
    e.ExecuteApply(Binary(true, Success));
  }
}
