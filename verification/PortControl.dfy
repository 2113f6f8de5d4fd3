/**
 The locked sections of `PortStatus` on the fields the firmware keeps: a status byte with one bit per flag, the
 mailbox slot, the worker's pending record and the lifecycle requests, all updated in place. Every method's new
 state is the abstract section applied to the old one.
 */
module PortControl {
  import opened Words
  import opened PortStatus

  const READY: bv8 := 0x01
  const INIT_FAILED: bv8 := 0x02
  const CONTROL_ERROR: bv8 := 0x04
  const CONTROL_PENDING: bv8 := 0x08

  predicate Has(flags: bv8, bit: bv8) {
    flags & bit != 0
  }

  class Mailbox {
    var occupied: bool
    var request: Request

    function View(): Option<Request>
      reads this
    {
      if occupied then Some(request) else None
    }

    constructor ()
      ensures View() == None
    {
      occupied, request := false, Request(0, 0, LineCoding(0, 0, 0, 0));
    }

    method Reset()
      modifies this
      ensures View() == None
    {
      occupied, request := false, Request(0, 0, LineCoding(0, 0, 0, 0));
    }

    /** The slot holds one request: a second one is refused and changes nothing. */
    method Publish(r: Request) returns (published: bool)
      modifies this
      ensures published == old(View()).None?
      ensures View() == if published then Some(r) else old(View())
    {
      if occupied {
        return false;
      }
      request, occupied := r, true;
      return true;
    }

    method Take() returns (taken: Option<Request>)
      modifies this
      ensures taken == old(View()) && View() == None
    {
      if !occupied {
        return None;
      }
      occupied := false;
      return Some(request);
    }
  }

  class Port {
    var flags: bv8
    const mailbox: Mailbox
    var pending: Pending
    var softPending: bool
    var stopPending: bool
    var usbQuiesced: bool
    var startPending: bool
    var generation: nat
    var info: LineCoding
    var reason: ErrorReason

    function View(): Status
      reads this, mailbox
    {
      Status(Has(flags, READY), Has(flags, INIT_FAILED), Has(flags, CONTROL_ERROR), Has(flags, CONTROL_PENDING),
             stopPending, usbQuiesced, startPending, softPending, generation, mailbox.View(), pending, info,
             reason)
    }

    constructor (board: LineCoding)
      ensures fresh(mailbox)
      ensures View() == Status(false, false, false, false, false, false, false, false, 0, None,
                               Pending(false, 0, 0, board), board, NoError)
    {
      flags := 0;
      mailbox := new Mailbox();
      pending := Pending(false, 0, 0, board);
      softPending, stopPending, usbQuiesced, startPending := false, false, false, false;
      generation, info, reason := 0, board, NoError;
    }

    method Set(mask: bv8)
      modifies this`flags
      ensures Has(flags, READY) == (Has(old(flags), READY) || Has(mask, READY))
      ensures Has(flags, INIT_FAILED) == (Has(old(flags), INIT_FAILED) || Has(mask, INIT_FAILED))
      ensures Has(flags, CONTROL_ERROR) == (Has(old(flags), CONTROL_ERROR) || Has(mask, CONTROL_ERROR))
      ensures Has(flags, CONTROL_PENDING) == (Has(old(flags), CONTROL_PENDING) || Has(mask, CONTROL_PENDING))
    {
      flags := flags | mask;
    }

    method Clear(mask: bv8)
      modifies this`flags
      ensures Has(flags, READY) == (Has(old(flags), READY) && !Has(mask, READY))
      ensures Has(flags, INIT_FAILED) == (Has(old(flags), INIT_FAILED) && !Has(mask, INIT_FAILED))
      ensures Has(flags, CONTROL_ERROR) == (Has(old(flags), CONTROL_ERROR) && !Has(mask, CONTROL_ERROR))
      ensures Has(flags, CONTROL_PENDING) == (Has(old(flags), CONTROL_PENDING) && !Has(mask, CONTROL_PENDING))
    {
      flags := flags & !mask;
    }

    method ApplyCompletionError(completion: nat, success: bool)
      modifies this`flags
      ensures Has(flags, READY) == Has(old(flags), READY)
      ensures Has(flags, INIT_FAILED) == Has(old(flags), INIT_FAILED)
      ensures Has(flags, CONTROL_ERROR) == if completion == generation then !success else Has(old(flags), CONTROL_ERROR)
      ensures Has(flags, CONTROL_PENDING) == Has(old(flags), CONTROL_PENDING)
    {
      if completion != generation {
        return;
      }
      if success {
        Clear(CONTROL_ERROR);
      } else {
        Set(CONTROL_ERROR);
      }
    }

    method ClearPendingIfUnowned()
      modifies this`flags
      ensures Has(flags, READY) == Has(old(flags), READY)
      ensures Has(flags, INIT_FAILED) == Has(old(flags), INIT_FAILED)
      ensures Has(flags, CONTROL_ERROR) == Has(old(flags), CONTROL_ERROR)
      ensures Has(flags, CONTROL_PENDING) ==
        (Has(old(flags), CONTROL_PENDING) && !PendingShouldClear(softPending, mailbox.occupied, pending.pending))
    {
      if PendingShouldClear(softPending, mailbox.occupied, pending.pending) {
        Clear(CONTROL_PENDING);
      }
    }

    // The USB core's sections.

    method RequestChannelStop() returns (queued: bool)
      modifies this
      ensures View() == PortStatus.RequestChannelStop(old(View())) && queued == !old(stopPending)
      ensures stopPending && Has(flags, CONTROL_PENDING) && !Has(flags, READY) && !Has(flags, CONTROL_ERROR)
    {
      queued := false;
      startPending := false;
      generation := generation + 1;
      softPending := false;
      Clear(READY | INIT_FAILED | CONTROL_ERROR);
      Set(CONTROL_PENDING);
      if !stopPending {
        stopPending := true;
        usbQuiesced := false;
        queued := true;
      }
    }

    method RequestChannelStart()
      modifies this`startPending
      ensures View() == PortStatus.RequestChannelStart(old(View()))
    {
      startPending := true;
    }

    method StopUsbQuiesced()
      modifies this`usbQuiesced
      ensures View() == PortStatus.StopUsbQuiesced(old(View()))
    {
      if stopPending {
        usbQuiesced := true;
      }
    }

    method QueueLineCoding(lineCoding: LineCoding, controlGeneration: nat, producer: nat) returns (queued: bool)
      modifies this, mailbox
      ensures queued == CanPublish(old(View()))
      ensures View() == PortStatus.QueueLineCoding(old(View()), lineCoding, controlGeneration, producer)
      ensures if queued then Has(flags, CONTROL_PENDING) && !softPending else View() == old(View())
    {
      if mailbox.occupied {
        return false;
      }
      softPending := false;
      Set(CONTROL_PENDING);
      var published := mailbox.Publish(Request(controlGeneration, producer, lineCoding));
      return true;
    }

    method MarkControlPending() returns (controlGeneration: nat)
      modifies this
      ensures View() == PortStatus.MarkControlPending(old(View())) && controlGeneration == generation > old(generation)
      ensures Has(flags, CONTROL_PENDING) && !Has(flags, CONTROL_ERROR)
    {
      generation := generation + 1;
      controlGeneration := generation;
      softPending := true;
      Set(CONTROL_PENDING);
      Clear(CONTROL_ERROR);
    }

    method RecordError(error: ErrorReason)
      modifies this`reason
      ensures reason == error
    {
      reason := error;
    }

    method ReportControlError(error: ErrorReason)
      modifies this
      ensures View() == PortStatus.ReportControlError(old(View()), error)
    {
      RecordError(error);
      generation := generation + 1;
      Set(CONTROL_ERROR);
    }

    method ReportSoftPendingError(controlGeneration: nat, error: ErrorReason)
      modifies this
      ensures View() == PortStatus.ReportSoftPendingError(old(View()), controlGeneration, error)
      ensures controlGeneration != generation ==> Has(flags, CONTROL_ERROR) == Has(old(flags), CONTROL_ERROR)
      ensures Has(flags, CONTROL_PENDING) ==
        (Has(old(flags), CONTROL_PENDING) && (mailbox.occupied || pending.pending))
    {
      RecordError(error);
      softPending := false;
      if controlGeneration == generation {
        Set(CONTROL_ERROR);
      }
      ClearPendingIfUnowned();
    }

    method ResetSoftPending()
      modifies this
      ensures View() == PortStatus.ResetSoftPending(old(View()))
      ensures Has(flags, CONTROL_PENDING) ==
        (Has(old(flags), CONTROL_PENDING) && (mailbox.occupied || pending.pending))
    {
      softPending := false;
      ClearPendingIfUnowned();
    }

    // The worker's sections.

    method TakeForService() returns (taken: Option<Request>, prior: bool)
      modifies this, mailbox
      ensures (View(), taken) == PortStatus.TakeForService(old(View()))
      ensures prior == (taken.Some? && old(pending.pending))
    {
      if !Has(flags, READY) {
        return None, false;
      }
      taken := mailbox.Take();
      prior := taken.Some? && pending.pending;
      if taken.Some? && !prior {
        pending := pending.(pending := true, generation := taken.value.generation);
      }
    }

    method TakeForStart() returns (taken: Option<Request>)
      modifies this, mailbox
      ensures (View(), taken) == PortStatus.TakeForStart(old(View()))
    {
      taken := mailbox.Take();
      if taken.Some? {
        pending := pending.(pending := true, generation := taken.value.generation);
      }
    }

    method FinishWorkerControl(controlGeneration: nat, error: ErrorReason, applied: LineCoding)
      modifies this
      ensures View() == PortStatus.FinishWorkerControl(old(View()), controlGeneration, error, applied)
      ensures controlGeneration != generation ==> Has(flags, CONTROL_ERROR) == Has(old(flags), CONTROL_ERROR)
      ensures Has(flags, CONTROL_PENDING) ==
        (Has(old(flags), CONTROL_PENDING) && (softPending || mailbox.occupied))
    {
      if error.NoError? {
        info := applied;
      } else {
        RecordError(error);
      }
      pending := pending.(pending := false);
      ClearPendingIfUnowned();
      ApplyCompletionError(controlGeneration, error.NoError?);
    }

    /** Give up the worker's record of a request; when it was a cancelled apply, that one completes with success. */
    method ReleaseWorker(drop: bool, workerGeneration: nat, completeWorker: bool)
      modifies this`pending, this`flags
      ensures pending == old(pending).(pending := old(pending.pending) && !drop && !completeWorker)
      ensures Has(flags, READY) == Has(old(flags), READY)
      ensures Has(flags, INIT_FAILED) == Has(old(flags), INIT_FAILED)
      ensures Has(flags, CONTROL_ERROR) ==
        (Has(old(flags), CONTROL_ERROR) && !(completeWorker && workerGeneration == generation))
      ensures Has(flags, CONTROL_PENDING) == Has(old(flags), CONTROL_PENDING)
    {
      if drop || completeWorker {
        pending := pending.(pending := false);
      }
      if completeWorker {
        ApplyCompletionError(workerGeneration, true);
      }
    }

    method FinishMailboxControl(controlGeneration: nat, error: ErrorReason, dropProvisional: bool,
                                workerGeneration: nat, completeWorker: bool)
      modifies this
      ensures View() == PortStatus.FinishMailboxControl(old(View()), controlGeneration, error, dropProvisional,
                                                        workerGeneration, completeWorker)
    {
      if !error.NoError? {
        RecordError(error);
      }
      ReleaseWorker(dropProvisional, workerGeneration, completeWorker);
      ClearPendingIfUnowned();
      ApplyCompletionError(controlGeneration, error.NoError?);
    }

    method PublishInfo(lineCoding: LineCoding)
      modifies this`info
      ensures View() == PortStatus.PublishInfo(old(View()), lineCoding)
    {
      info := lineCoding;
    }

    method SetWorkerPending(controlGeneration: nat)
      modifies this
      ensures View() == PortStatus.SetWorkerPending(old(View()), controlGeneration)
    {
      pending := pending.(pending := true, generation := controlGeneration);
      Set(CONTROL_PENDING);
      if controlGeneration == generation {
        Clear(CONTROL_ERROR);
      }
    }

    method MarkApplyFailed()
      modifies this`flags
      ensures View() == PortStatus.MarkApplyFailed(old(View()))
    {
      Set(INIT_FAILED);
      Clear(READY);
    }

    method CompleteStop()
      modifies this, mailbox
      ensures View() == PortStatus.CompleteStop(old(View()))
      ensures !stopPending && !Has(flags, READY) && (Has(flags, CONTROL_PENDING) ==> softPending)
    {
      mailbox.Reset();
      pending := Pending(false, 0, 0, LineCoding(0, 0, 0, 0));
      stopPending := false;
      usbQuiesced := false;
      Clear(READY | INIT_FAILED);
      if !softPending {
        Clear(CONTROL_PENDING);
      }
    }

    method TakeStart() returns (taken: bool)
      modifies this`startPending
      ensures (View(), taken) == PortStatus.TakeStart(old(View()))
    {
      if !startPending {
        return false;
      }
      if stopPending {
        return false;
      }
      startPending := false;
      return true;
    }

    method PublishStart(ok: bool)
      modifies this`flags
      ensures View() == PortStatus.PublishStart(old(View()), ok)
      ensures if stopPending || startPending then flags == old(flags) else Has(flags, READY) == ok
    {
      if stopPending || startPending {
        return;
      } else if ok {
        Clear(INIT_FAILED);
        Set(READY);
      } else {
        Set(INIT_FAILED);
        Clear(READY);
      }
    }
  }
}
