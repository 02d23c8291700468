/** Who owns the card: the volatile flags of the mount, of the USB stack's callbacks and of the wake
    recovery, and one durable byte, across any order of callbacks and resets at any step. */
module Ownership {
  import opened Wrappers

  /** The durable lifecycle byte; a missing key reads as `Normal`, an unknown value as `Corrupt`. */
  datatype Life = Normal | Armed | HostUnresolved | WakePending | Corrupt

  /** sd_mount.c */
  datatype Sd = Sd(mounted: bool, requested: bool, fsReleased: bool, storage: bool, driver: bool)

  /** usb_msc_ownership.c: the flags that decide ownership, and those that only order the callbacks. */
  datatype Usb = Usb(
    initialized: bool, starting: bool, started: bool, triggered: bool, storageOwned: bool, hostOwned: bool,
    releasePending: bool, waitingResponse: bool, attempt: string, releaseBit: bool)

  datatype Marks = Marks(
    provisional: bool, disconnected: bool, authorized: bool, detached: bool,
    attachBit: bool, hostOwnedBit: bool, reattachedBit: bool, failedBit: bool)

  /** task87_wake_recovery.c */
  datatype Wake = Wake(pending: bool, recovered: bool)

  /** What the processor is doing: powered down, starting up, or recording and serving USB. */
  datatype Boot = Down | Starting(manualWake: bool) | Running

  datatype Recorder = Idle | Recording | UsbPrepare | UsbSync | Failed

  /** Where the coordinator stands inside one of its two long handlers. */
  datatype Pc = Waiting | Finalizing | Publishing | Transferring | Reconnecting | Uninstalling | Releasing | Committing | Retiring

  /** One change of the durable byte, with what had happened in the powered session before it. */
  datatype Change = Change(from: Life, to: Life, manualWake: bool, synced: bool, newRecording: bool, uninstalled: bool, deleted: bool)

  /** The only changes that may happen, and what must have come first. */
  predicate Legal(c: Change) {
    match (c.from, c.to)
    case (Normal, HostUnresolved) => true
    case (HostUnresolved, Armed) => c.uninstalled && c.deleted
    case (Armed, WakePending) => c.manualWake && c.synced
    case (WakePending, Normal) => c.manualWake && c.synced && c.newRecording
    case _ => false
  }

  predicate Chained(trail: seq<Change>, first: Life, last: Life) {
    && (trail == [] ==> first == last)
    && (trail != [] ==> trail[0].from == first && trail[|trail| - 1].to == last)
    && (forall i :: 0 < i < |trail| ==> trail[i].from == trail[i - 1].to)
    && (forall i :: 0 <= i < |trail| ==> Legal(trail[i]))
  }

  const NO_SD := Sd(false, false, false, false, false)
  const NO_USB := Usb(false, false, false, false, false, false, false, false, "", false)
  const NO_MARKS := Marks(false, false, false, false, false, false, false, false)
  const NO_WAKE := Wake(false, false)

  /** The USB driver is neither installed nor being installed. */
  predicate NoDriver(usb: Usb) {
    !usb.started && !usb.starting
  }

  // ----- The invariant, by component -----

  /** The card is in one hand: USB-owned excludes the device mount, and host-owned needs USB-owned. */
  predicate Exclusive(sd: Sd, usb: Usb) {
    && (usb.storageOwned ==> !sd.mounted && sd.requested && sd.fsReleased && usb.triggered)
    && (usb.hostOwned ==> usb.storageOwned)
    && (sd.mounted && sd.requested ==> sd.storage)
  }

  /** While the storage is USB-owned the durable byte says so, until the driver and the storage are gone. */
  predicate BootVisible(life: Life, sd: Sd, usb: Usb) {
    usb.storageOwned ==> life == HostUnresolved || (life == Armed && NoDriver(usb) && !sd.storage)
  }

  /** The release gate: what is pending was accepted while the host owned the card. */
  predicate Gate(usb: Usb, accepts: seq<string>, teardowns: nat) {
    && (usb.waitingResponse ==> usb.releasePending)
    && (usb.releasePending ==> usb.hostOwned && accepts == [usb.attempt])
    && (usb.starting ==> usb.initialized && !usb.started && accepts == [])
    && (accepts != [] ==> usb.initialized)
    && |accepts| <= 1 && teardowns <= |accepts|
    && (usb.started && accepts != [] ==> usb.releasePending)
    && (usb.waitingResponse ==> teardowns == 0)
    && (usb.releaseBit ==> teardowns == 1)
  }

  /** What the coordinator has already done where it stands. */
  predicate Coordinated(life: Life, boot: Boot, sd: Sd, usb: Usb, pc: Pc) {
    match pc
    case Waiting => true
    case Finalizing => boot.Running? && sd.requested && usb.triggered && !usb.storageOwned
    case Publishing => boot.Running? && usb.triggered && sd.mounted && sd.requested && sd.fsReleased && !usb.storageOwned
    case Transferring => boot.Running? && usb.triggered && sd.mounted && sd.requested && sd.fsReleased && !usb.storageOwned && life == HostUnresolved
    case Reconnecting => usb.storageOwned
    case Uninstalling => usb.hostOwned && usb.releasePending && !usb.waitingResponse && life == HostUnresolved
    case Releasing => NoDriver(usb) && usb.hostOwned && usb.releasePending && life == HostUnresolved
    case Committing => NoDriver(usb) && !sd.storage && usb.hostOwned && usb.releasePending && life == HostUnresolved
    case Retiring => NoDriver(usb) && !sd.storage && usb.hostOwned && usb.releasePending && life == Armed
  }

  /** The boot stages: a boot that must stay shut down mounts nothing, and USB waits for the wake proof. */
  predicate Staged(life: Life, boot: Boot, wake: Wake, synced: bool, sd: Sd, usb: Usb) {
    match boot
    case Down => sd == NO_SD && usb == NO_USB
    case Starting(manual) =>
      && usb == NO_USB && !sd.requested
      && (wake.pending ==> manual)
      && (wake.recovered ==> wake.pending && synced)
      && (if !wake.pending then life == Normal
          else if wake.recovered then life in {WakePending, Normal} else life in {Armed, WakePending})
    case Running =>
      && !wake.pending && (!usb.initialized ==> usb == NO_USB && life == Normal)
      && (life == Normal || (life == HostUnresolved && usb.triggered) || (life == Armed && NoDriver(usb) && !sd.storage))
  }

  /** With everything volatile cleared, only the boot stage is left to check. */
  lemma Cleared(life: Life, boot: Boot)
    ensures Exclusive(NO_SD, NO_USB) && BootVisible(life, NO_SD, NO_USB) && Gate(NO_USB, [], 0)
    ensures Coordinated(life, boot, NO_SD, NO_USB, Waiting)
  {
  }

  /** And of the boot stages, that the byte allows the boot and that the wake mark stands for it. */
  lemma Rebooted(life: Life, boot: Boot, wake: Wake)
    requires boot.Down? || (boot.Starting? && wake == Wake(life != Normal, false))
    requires boot.Starting? ==> life == Normal || ((life == Armed || life == WakePending) && boot.manualWake)
    ensures Staged(life, boot, wake, false, NO_SD, NO_USB)
  {
  }

  class Device {
    var life: Life
    var boot: Boot
    var wake: Wake
    var synced: bool
    var newRecording: bool
    var sd: Sd
    var usb: Usb
    var marks: Marks
    var recorder: Recorder
    var pc: Pc
    /** The durable byte's changes since the device was made, and the release attempts of this power cycle. */
    ghost var first: Life
    ghost var trail: seq<Change>
    ghost var accepts: seq<string>
    ghost var teardowns: nat

    ghost predicate Valid()
      reads this
    {
      && Chained(trail, first, life)
      && Exclusive(sd, usb) && BootVisible(life, sd, usb) && Gate(usb, accepts, teardowns)
      && Coordinated(life, boot, sd, usb, pc) && Staged(life, boot, wake, synced, sd, usb)
    }

    /** What holds at every point of every run. */
    lemma OwnedMeans()
      requires Valid()
      ensures usb.hostOwned ==> usb.storageOwned
      ensures usb.storageOwned ==> !sd.mounted && (life == HostUnresolved || (life == Armed && NoDriver(usb) && !sd.storage))
      ensures boot.Down? || (life == HostUnresolved && !usb.triggered) ==> !sd.mounted && !usb.storageOwned
      ensures |accepts| <= 1 && teardowns <= |accepts|
      ensures forall i :: 0 <= i < |trail| ==> Legal(trail[i])
    {
    }

    constructor (life: Life)
      ensures Valid() && this.life == this.first == life && trail == [] && boot == Down
    {
      this.life, first, trail := life, life, [];
      boot, wake, synced, newRecording := Down, NO_WAKE, false, false;
      sd, usb, marks, recorder, pc := NO_SD, NO_USB, NO_MARKS, Idle, Waiting;
      accepts, teardowns := [], 0;
    }

    // ----- The durable byte -----

    /** shutdown_armed_write: a failed write may or may not have stored the value. */
    method Write(to: Life, works: bool, stores: bool) returns (ok: bool)
      requires Chained(trail, first, life)
      requires life == to || Legal(Evidence(to))
      modifies this`life, this`trail
      ensures Chained(trail, first, life)
      ensures ok == works && life == if works || stores then to else old(life)
      ensures trail == if life == old(life) then old(trail) else old(trail) + [old(Evidence(to))]
    {
      ok := works;
      if (works || stores) && life != to {
        trail := trail + [Evidence(to)];
        life := to;
      }
    }

    /** Nothing but a reset wakes a device that is shut down. */
    twostate predicate StaysDown()
      reads this
    {
      old(boot.Down?) ==> boot.Down? && life == old(life)
    }

    ghost function Evidence(to: Life): Change
      reads this
    {
      Change(life, to, boot.Starting? && boot.manualWake, synced, newRecording, NoDriver(usb), !sd.storage)
    }

    // ----- Power and boot -----

    /** A reset clears everything that is not durable. */
    method PowerOff()
      modifies this
      ensures life == old(life) && trail == old(trail) && first == old(first)
      ensures wake == NO_WAKE && !synced && !newRecording && sd == NO_SD && usb == NO_USB && marks == NO_MARKS
      ensures recorder == Idle && pc == Waiting && accepts == [] && teardowns == 0 && boot == Down
    {
      boot, wake, synced, newRecording := Down, NO_WAKE, false, false;
      sd, usb, marks, recorder, pc := NO_SD, NO_USB, NO_MARKS, Idle, Waiting;
      accepts, teardowns := [], 0;
    }

    /** A reset at any point, and the boot gate: the durable byte and the WAKE button decide. */
    method Reset(manualWake: bool, readable: bool)
      requires Valid()
      modifies this
      ensures Valid() && life == old(life) && trail == old(trail) && first == old(first)
      ensures boot.Starting? <==> readable && (life == Normal || ((life == Armed || life == WakePending) && manualWake))
      ensures boot == if boot.Starting? then Starting(manualWake) else Down
      ensures wake == Wake(boot.Starting? && life != Normal, false)
      ensures !synced && !newRecording && sd == NO_SD && usb == NO_USB && marks == NO_MARKS && recorder == Idle && pc == Waiting
      ensures accepts == [] && teardowns == 0
    {
      hide Chained, Legal, Exclusive, BootVisible, Gate, Coordinated, Staged;
      PowerOff();
      if readable && (life == Normal || (manualWake && (life == Armed || life == WakePending))) {
        boot, wake := Starting(manualWake), Wake(life != Normal, false);
      }
      Cleared(life, boot);
      Rebooted(life, boot, wake);
    }

    /** sd_mount_recordings. */
    method MountCard(works: bool)
      requires Valid()
      modifies this`sd
      ensures Valid() && (sd == old(sd) || (boot.Starting? && life in {Normal, Armed, WakePending} && sd.mounted))
      ensures boot.Starting? && works && old(sd) == NO_SD ==> sd == Sd(true, false, false, true, true)
    {
      hide Chained, Legal;
      if boot.Starting? && !sd.mounted && !sd.storage && works {
        sd := Sd(true, false, false, true, true);
      }
    }

    /** The boot scan's manifest sync, and with a recovery pending the durable wake-recovery mark. */
    method SyncManifest(scanned: bool, flushed: bool, readable: bool, works: bool, stores: bool) returns (ok: bool)
      requires Valid()
      modifies this`synced, this`wake, this`life, this`trail
      ensures Valid() && life in {old(life), WakePending} && StaysDown()
      ensures ok <==> boot.Starting? && sd.mounted && scanned && (wake.pending ==> old(!wake.recovered) && flushed && readable && (old(life) == Armed ==> works))
      ensures wake == old(wake).(recovered := (ok && wake.pending) || old(wake.recovered))
      ensures ok ==> synced && (wake.pending ==> life == WakePending)
      ensures !wake.pending ==> life == old(life)
      ensures trail == if life == old(life) then old(trail) else old(trail) + [Change(Armed, WakePending, true, true, newRecording, NoDriver(usb), !sd.storage)]
    {
      hide Chained;
      if !boot.Starting? || !sd.mounted || !scanned {
        return false;
      }
      if !wake.pending {
        synced := true;
        return true;
      }
      if wake.recovered || !flushed {
        return false;
      }
      synced := true;
      if !readable || life !in {Armed, WakePending} {
        return false;
      }
      ok := true;
      if life == Armed {
        ok := Write(WakePending, works, stores);
      }
      wake := wake.(recovered := ok);
    }

    /** The wait for the initial recording: only a fresh recording completes the wake recovery. */
    method RecordingStarted(freshId: bool, readable: bool, works: bool, stores: bool) returns (ok: bool)
      requires Valid()
      modifies this`newRecording, this`wake, this`boot, this`recorder, this`life, this`trail
      ensures Valid() && life in {old(life), Normal} && StaysDown()
      ensures ok <==> old(boot.Starting?) && (old(wake.pending) ==> old(wake.recovered) && freshId && readable && old(life) == WakePending && works)
      ensures boot == if ok then Running else old(boot)
      ensures ok ==> wake == NO_WAKE && life == Normal && recorder == Recorder.Recording
      ensures life != old(life) ==> old(wake.pending) && freshId && old(wake.recovered)
      ensures trail == if life == old(life) then old(trail) else old(trail) + [Change(WakePending, Normal, true, true, true, NoDriver(usb), !sd.storage)]
    {
      hide Chained;
      if !boot.Starting? {
        return false;
      }
      if wake.pending {
        if !wake.recovered || !freshId {
          recorder := Failed;
          return false;
        }
        newRecording := true;
        if !readable || life != WakePending {
          recorder := Failed;
          return false;
        }
        ok := Write(Normal, works, stores);
        if !ok {
          recorder := Failed;
          return;
        }
        wake := Wake(false, false);
      }
      boot, recorder, ok := Running, Recorder.Recording, true;
    }

    /** usb_msc_ownership_init and usb_msc_ownership_start up to the driver's install call. */
    method StartUsb(works: bool, calls: bool)
      requires Valid()
      modifies this`usb
      ensures Valid()
      ensures usb.starting && !old(usb.starting) ==> boot.Running? && life == Normal && sd.mounted
      ensures usb == if boot.Running? && sd.mounted && works && old(usb) == NO_USB then NO_USB.(initialized := true, starting := calls) else old(usb)
    {
      hide Chained, Legal;
      if boot.Running? && !usb.initialized && sd.mounted && works {
        usb := usb.(initialized := true, starting := calls);
      }
    }

    /** The install call returns; callbacks may already have run. */
    method Installed(installs: bool)
      requires Valid()
      modifies this`usb
      ensures Valid()
      ensures usb == if old(usb.starting) then old(usb).(starting := false, started := installs) else old(usb)
    {
      hide Chained, Legal;
      if usb.starting {
        usb := usb.(starting := false, started := installs);
      }
    }

    // ----- USB callbacks, delivered while the driver runs or is being installed -----

    method Fail()
      modifies this`marks
      ensures marks == old(marks).(failedBit := true)
    {
      marks := marks.(failedBit := true);
    }

    /** TINYUSB_EVENT_ATTACHED: provisional first, host-owned only after the card was handed over. */
    method Attached()
      requires Valid()
      modifies this`usb, this`marks
      ensures Valid()
      ensures usb == if old(!NoDriver(usb) && usb.storageOwned && marks.disconnected) then old(usb).(hostOwned := true) else old(usb)
      ensures usb.hostOwned && !old(usb.hostOwned) ==> marks == old(marks).(provisional := false, disconnected := false, hostOwnedBit := true)
      ensures old(!NoDriver(usb) && !usb.storageOwned && !usb.triggered && sd.mounted && !marks.provisional)
        ==> marks == old(marks).(provisional := true)
    {
      hide Chained, Legal;
      if NoDriver(usb) {
        return;
      }
      if !usb.storageOwned {
        if usb.hostOwned || usb.releasePending || usb.triggered || marks.provisional || !sd.mounted {
          Fail();
        } else {
          marks := marks.(provisional := true);
        }
      } else if !usb.hostOwned {
        if !usb.triggered || !marks.disconnected || usb.releasePending || sd.mounted {
          Fail();
        } else {
          usb := usb.(hostOwned := true);
          marks := marks.(provisional := false, disconnected := false, hostOwnedBit := true);
        }
      } else if usb.releasePending || sd.mounted {
        Fail();
      }
    }

    /** TINYUSB_EVENT_DETACHED: never a release; it only retires a provisional configuration. */
    method Detached()
      requires Valid()
      modifies this`marks
      ensures Valid()
      ensures marks == old(if usb.hostOwned then marks.(detached := true)
        else if !usb.storageOwned && marks.provisional && !usb.triggered then marks.(provisional := false) else marks)
    {
      if !usb.storageOwned && !usb.hostOwned && marks.provisional && !usb.triggered {
        marks := marks.(provisional := false);
      } else if usb.hostOwned {
        marks := marks.(detached := true);
      }
    }

    /** A completed SCSI command: the first TEST UNIT READY triggers publication, later ones only
        reopen the command session after a reconnect. */
    method CommandComplete(testUnitReady: bool)
      requires Valid()
      modifies this`usb, this`marks
      ensures Valid()
      ensures usb == if testUnitReady && old(!NoDriver(usb) && !usb.storageOwned && marks.provisional && sd.mounted) then old(usb).(triggered := true) else old(usb)
      ensures usb.triggered && !old(usb.triggered) ==> marks == old(marks).(attachBit := true)
      ensures usb.triggered == old(usb.triggered)
        ==> marks == if old(!NoDriver(usb) && usb.hostOwned && marks.detached && accepts == []) then old(marks).(detached := false, reattachedBit := true) else old(marks)
    {
      hide Chained, Legal;
      if NoDriver(usb) {
        return;
      }
      if !usb.storageOwned && marks.provisional && !usb.triggered {
        if testUnitReady && !usb.hostOwned && !usb.releasePending && sd.mounted {
          usb, marks := usb.(triggered := true), marks.(attachBit := true);
        }
      } else if usb.hostOwned && marks.detached && !usb.releasePending && !sd.mounted {
        marks := marks.(detached := false, reattachedBit := true);
      }
    }

    /** The wrapped MSC callbacks: does a command of the host reach the storage? */
    method BackendCommand() returns (reaches: bool)
      requires Valid()
      ensures reaches <==> !NoDriver(usb) && accepts == []
    {
      hide Chained, Legal;
      reaches := !NoDriver(usb) && !usb.releasePending;
    }

    // ----- The release commands of the serial protocol -----

    /** usb_msc_ownership_accept_release_storage. */
    method AcceptRelease(id: string) returns (r: Option<bool>)
      requires Valid()
      modifies this`usb, this`accepts
      ensures Valid()
      ensures r == if AttemptValid(id) && old(usb.started && usb.hostOwned) then Some(old(accepts) == []) else None
      ensures r == Some(true) ==> accepts == [id] && life == HostUnresolved && !sd.mounted
      ensures usb == if r == Some(true) then old(usb).(releasePending := true, attempt := id, waitingResponse := true) else old(usb)
      ensures r != Some(true) ==> accepts == old(accepts)
    {
      hide Chained, Legal, AttemptValid;
      var valid := IsAttempt(id);
      if !valid {
        return None;
      }
      if !usb.initialized || !usb.started || !usb.storageOwned || !usb.hostOwned || sd.mounted {
        return None;
      }
      if usb.releasePending {
        return Some(false);
      }
      usb := usb.(releasePending := true, attempt := id, waitingResponse := true);
      accepts := accepts + [id];
      r := Some(true);
    }

    /** usb_msc_ownership_release_response_complete: the only signal for teardown. */
    method ResponseComplete(id: string) returns (ok: bool)
      requires Valid()
      modifies this`usb, this`teardowns
      ensures Valid()
      ensures ok <==> old(teardowns == 0 && accepts == [id] && usb.started && usb.waitingResponse && AttemptValid(id))
      ensures usb == if ok then old(usb).(waitingResponse := false, releaseBit := true) else old(usb)
      ensures teardowns == if ok then 1 else old(teardowns)
    {
      hide Chained, Legal, AttemptValid;
      var valid := IsAttempt(id);
      if !valid || !usb.releasePending || !usb.waitingResponse || !usb.initialized || !usb.started || !usb.hostOwned
        || usb.attempt != id {
        return false;
      }
      usb := usb.(waitingResponse := false, releaseBit := true);
      teardowns := teardowns + 1;
      ok := true;
    }

    // ----- The coordinator -----

    /** sd_mount_unmount: with a release requested, the device's last access to the file system. Without
        one, a driver that cannot be uninstalled leaves the mount flag set with the storage gone. */
    method Unmount(deletes: bool, uninstalls: bool)
      requires Valid()
      modifies this`sd
      ensures Valid()
      ensures old(sd.requested) ==> sd == old(sd).(fsReleased := true)
      ensures !old(sd.requested) ==> sd in {old(sd), old(sd).(storage := false), Sd(false, false, true, false, false)}
      ensures !old(sd.requested) && deletes && uninstalls && !boot.Down? ==> sd == Sd(false, false, true, false, false)
    {
      hide Chained, Legal;
      if sd.requested {
        sd := sd.(fsReleased := true);
        return;
      }
      if boot.Down? || (sd.storage && !deletes) {
        return;
      }
      sd := sd.(storage := false);
      if !sd.driver || uninstalls {
        sd := Sd(false, false, true, false, false);
      }
    }

    /** usb_msc_ownership_begin_prepare: the device disconnects from the host on its own. */
    method BeginPrepare(disconnects: bool) returns (ok: bool)
      requires Valid()
      modifies this`marks
      ensures Valid()
      ensures ok <==> old(Provisional()) && (disconnects || old(marks.disconnected))
      ensures marks == if ok then old(marks).(disconnected := true) else if old(Provisional()) then old(marks).(failedBit := true) else old(marks)
    {
      hide Chained, Legal, Exclusive, BootVisible, Staged, Coordinated;
      assert usb.hostOwned ==> usb.storageOwned by { HostOwnsStorage(); }
      if !usb.initialized || NoDriver(usb) || !marks.provisional || !usb.triggered || usb.storageOwned || usb.hostOwned
        || usb.releasePending || !sd.mounted {
        return false;
      }
      ok := marks.disconnected || disconnects;
      if ok {
        marks := marks.(disconnected := true);
      } else {
        Fail();
      }
    }

    /** The driver runs, a host has completed its first command, and the card is still the device's. */
    predicate Provisional()
      reads this
    {
      usb.initialized && !NoDriver(usb) && marks.provisional && usb.triggered && !usb.storageOwned && sd.mounted
    }

    lemma HostOwnsStorage()
      requires Valid()
      ensures usb.hostOwned ==> usb.storageOwned
    {
    }

    /** sd_mount_release_for_usb. */
    method ReleaseForUsb() returns (ok: bool)
      requires Valid() && boot.Running? && pc == Waiting && usb.triggered && !usb.storageOwned
      modifies this`sd
      ensures Valid()
      ensures ok <==> old(sd.mounted && sd.storage && !sd.requested)
      ensures sd == if ok then old(sd).(requested := true, fsReleased := false) else old(sd)
    {
      hide Chained, Legal, Gate;
      ok := sd.mounted && sd.storage && !sd.requested;
      if ok {
        sd := sd.(requested := true, fsReleased := false);
      }
    }

    /** recorder_handle_usb_attach up to the wait for the writer: disconnect, then request the release. */
    method HandleAttach(disconnects: bool)
      requires Valid()
      modifies this`marks, this`recorder, this`sd, this`pc
      ensures Valid()
      ensures pc != old(pc) <==> old(pc == Waiting && recorder == Recorder.Recording && marks.attachBit && Provisional() && sd.storage && !sd.requested) && (disconnects || old(marks.disconnected))
      ensures pc != old(pc) ==> pc == Finalizing && recorder == UsbPrepare && sd == old(sd).(requested := true, fsReleased := false)
      ensures pc != old(pc) ==> marks == old(marks).(attachBit := false, disconnected := true)
      ensures pc == old(pc) ==> sd == old(sd)
    {
      hide Chained, Legal, Gate, Exclusive, BootVisible;
      if pc != Waiting || !marks.attachBit {
        return;
      }
      marks := marks.(attachBit := false);
      if recorder != Recorder.Recording {
        recorder := Failed;
        return;
      }
      var ok := BeginPrepare(disconnects);
      if ok {
        recorder := UsbPrepare;
        ok := ReleaseForUsb();
      }
      if ok {
        pc := Finalizing;
      } else {
        recorder := Failed;
      }
    }

    /** The writer is done: usb_msc_publish's gate. */
    method FinishPrepare(finalized: bool)
      requires Valid()
      modifies this`marks, this`recorder, this`pc
      ensures Valid()
      ensures old(pc) == Finalizing ==> pc == if finalized && old(recorder == UsbPrepare && marks.provisional && marks.disconnected) && sd.fsReleased && sd.mounted then Publishing else Waiting
      ensures old(pc) != Finalizing ==> pc == old(pc)
      ensures if old(pc) == Finalizing && pc == Waiting then marks == old(marks).(failedBit := true) && recorder == Failed
        else marks == old(marks) && recorder == old(recorder)
    {
      hide Chained, Legal;
      if pc != Finalizing {
        return;
      }
      pc := Waiting;
      if !finalized || recorder != UsbPrepare || !sd.fsReleased || usb.storageOwned || usb.hostOwned || usb.releasePending
        || !marks.provisional || !usb.triggered || !marks.disconnected || !sd.mounted {
        Fail();
        recorder := Failed;
      } else {
        pc := Publishing;
      }
    }

    /** The durable mark comes before the card can become USB-owned. */
    method PublishMark(works: bool, stores: bool)
      requires Valid()
      modifies this`marks, this`pc, this`life, this`trail
      ensures Valid() && StaysDown()
      ensures pc == if old(pc) != Publishing then old(pc) else if works then Transferring else Waiting
      ensures pc == Transferring && old(pc) != Transferring ==> life == HostUnresolved && marks == old(marks).(authorized := true)
      ensures life != old(life) ==> life == HostUnresolved
      ensures old(pc) != Publishing ==> marks == old(marks)
      ensures trail == if life == old(life) then old(trail) else old(trail) + [old(Evidence(HostUnresolved))]
    {
      hide Chained;
      if pc != Publishing {
        return;
      }
      var ok := Write(HostUnresolved, works, stores);
      if ok {
        marks, pc := marks.(authorized := true), Transferring;
      } else {
        Fail();
        pc := Waiting;
      }
    }

    /** sd_mount_transfer_to_usb: `completes` says that the stack reported the mount to USB. */
    method Transfer(works: bool, completes: bool)
      requires Valid()
      modifies this`marks, this`usb, this`sd, this`pc
      ensures Valid()
      ensures usb.storageOwned && !old(usb.storageOwned) ==> old(pc) == Transferring && life == HostUnresolved && !sd.mounted
      ensures old(pc) != Transferring ==> usb == old(usb) && sd == old(sd) && pc == old(pc) && marks == old(marks)
      ensures old(pc) == Transferring ==> usb == old(usb).(storageOwned := completes && old(marks.authorized))
      ensures old(pc) == Transferring ==> sd == old(sd).(mounted := !usb.storageOwned)
      ensures old(pc) == Transferring ==> pc == if works && usb.storageOwned then Reconnecting else Waiting
      ensures old(pc) == Transferring && pc == Reconnecting ==> marks == old(marks).(authorized := false)
    {
      hide Chained, Legal;
      if pc != Transferring {
        return;
      }
      if completes && marks.authorized {
        if sd.requested && sd.fsReleased {
          sd := sd.(mounted := false);
        }
        usb := usb.(storageOwned := true);
      }
      marks := marks.(authorized := false);
      if !works || !usb.storageOwned || sd.mounted {
        Fail();
        pc := Waiting;
      } else {
        pc := Reconnecting;
      }
    }

    method Reconnect(works: bool)
      requires Valid()
      modifies this`marks, this`pc
      ensures Valid()
      ensures pc == if old(pc) == Reconnecting then Waiting else old(pc)
      ensures marks == if old(pc) == Reconnecting && !works then old(marks).(failedBit := true) else old(marks)
    {
      hide Chained, Legal;
      if pc == Reconnecting {
        if !works {
          Fail();
        }
        pc := Waiting;
      }
    }

    /** recorder_handle_usb_host_owned. */
    method HandleHostOwned()
      requires Valid()
      modifies this`marks, this`recorder
      ensures Valid() && (recorder == UsbSync && old(recorder) != UsbSync ==> usb.hostOwned && !sd.mounted)
      ensures marks == if old(pc) == Waiting then old(marks).(hostOwnedBit := false) else old(marks)
      ensures recorder == if !old(pc == Waiting && marks.hostOwnedBit) then old(recorder) else if old(recorder) == UsbPrepare && usb.hostOwned then UsbSync else Failed
    {
      if pc == Waiting && marks.hostOwnedBit {
        marks := marks.(hostOwnedBit := false);
        recorder := if recorder != UsbPrepare || sd.mounted || !usb.hostOwned then Failed else UsbSync;
      }
    }

    /** recorder_handle_usb_release and the guard of usb_msc_ownership_complete_release_quiesce. */
    method HandleRelease()
      requires Valid()
      modifies this`usb, this`recorder, this`pc
      ensures Valid()
      ensures pc == Uninstalling && old(pc) != Uninstalling ==> teardowns == 1 && usb.releasePending && !usb.waitingResponse
      ensures pc == if old(pc == Waiting && usb.releaseBit && recorder == UsbSync && usb.started && usb.hostOwned) then Uninstalling else old(pc)
      ensures usb == if old(pc) == Waiting then old(usb).(releaseBit := false) else old(usb)
      ensures recorder == if old(pc == Waiting && usb.releaseBit) && pc == Waiting then Failed else old(recorder)
    {
      hide Chained, Legal;
      if pc != Waiting || !usb.releaseBit {
        return;
      }
      usb := usb.(releaseBit := false);
      if recorder != UsbSync || sd.mounted || !usb.hostOwned || !usb.initialized || !usb.started || !usb.storageOwned
        || !usb.releasePending || usb.waitingResponse {
        recorder := Failed;
      } else {
        pc := Uninstalling;
      }
    }

    /** tinyusb_driver_uninstall. */
    method Uninstall(works: bool)
      requires Valid()
      modifies this`usb, this`marks, this`pc
      ensures Valid()
      ensures pc == if old(pc) != Uninstalling then old(pc) else if works then Releasing else Waiting
      ensures usb == if old(pc) == Uninstalling && works then old(usb).(started := false) else old(usb)
      ensures marks == if old(pc) == Uninstalling && !works then old(marks).(failedBit := true) else old(marks)
    {
      hide Chained, Legal;
      if pc != Uninstalling {
        return;
      }
      if works {
        usb, pc := usb.(started := false), Releasing;
      } else {
        Fail();
        pc := Waiting;
      }
    }

    /** sd_mount_release_usb_storage: deletion succeeds only when no deferred host write remains. */
    method ReleaseStorage(deletes: bool, uninstalls: bool)
      requires Valid()
      modifies this`sd, this`marks, this`pc
      ensures Valid()
      ensures pc == Committing && old(pc) != Committing ==> NoDriver(usb) && sd == old(sd).(storage := false, driver := false)
      ensures old(pc) != Releasing ==> pc == old(pc) && sd == old(sd) && marks == old(marks)
      ensures old(pc) == Releasing ==> pc == if deletes && uninstalls && old(sd.storage && sd.driver) then Committing else Waiting
      ensures sd.mounted == old(sd.mounted) && sd.requested == old(sd.requested) && (sd.storage != old(sd.storage) ==> deletes)
    {
      hide Chained, Legal;
      if pc != Releasing {
        return;
      }
      var ready := !sd.mounted && sd.requested && sd.fsReleased && sd.storage && sd.driver;
      if ready && deletes {
        sd := sd.(storage := false, driver := !uninstalls);
      }
      if ready && deletes && uninstalls {
        pc := Committing;
      } else {
        Fail();
        pc := Waiting;
      }
    }

    /** Only now is the unresolved host ownership retired. */
    method CommitArmed(works: bool, stores: bool)
      requires Valid()
      modifies this`marks, this`pc, this`life, this`trail
      ensures Valid() && StaysDown()
      ensures pc == if old(pc) != Committing then old(pc) else if works then Retiring else Waiting
      ensures pc == Retiring ==> life == Armed
      ensures trail == if life == old(life) then old(trail) else old(trail) + [old(Evidence(Armed))]
      ensures life != old(life) ==> life == Armed && NoDriver(usb) && !sd.storage
    {
      hide Chained;
      if pc != Committing {
        return;
      }
      var ok := Write(Armed, works, stores);
      if ok {
        pc := Retiring;
      } else {
        Fail();
        pc := Waiting;
      }
    }

    method Retire()
      requires Valid()
      modifies this`usb, this`marks, this`pc
      ensures Valid()
      ensures old(pc) == Retiring ==> life == Armed && pc == Waiting && usb == NO_USB.(initialized := true)
      ensures old(pc) == Retiring ==> marks == NO_MARKS.(failedBit := old(marks.failedBit))
      ensures old(pc) != Retiring ==> pc == old(pc) && usb == old(usb) && marks == old(marks)
    {
      hide Chained, Legal;
      if pc == Retiring {
        usb := Usb(usb.initialized, usb.starting, usb.started, false, false, false, false, false, "", false);
        marks, pc := marks.(provisional := false, disconnected := false, authorized := false, detached := false,
          attachBit := false, hostOwnedBit := false, reattachedBit := false), Waiting;
      }
    }

    // ----- The whole cycle, with every step working -----

    /** A boot from NORMAL: the card is mounted, the first recording runs and the USB driver is installed. */
    method PowerOn(manualWake: bool)
      requires Valid() && life == Normal
      modifies this
      ensures Valid() && life == Normal && trail == old(trail) && first == old(first)
      ensures boot == Running && recorder == Recorder.Recording && pc == Waiting && accepts == [] && teardowns == 0 && marks == NO_MARKS
      ensures usb == NO_USB.(initialized := true, started := true) && sd == Sd(true, false, false, true, true)
    {
      hide Valid, Chained, Legal, AttemptValid;
      Reset(manualWake, true);
      MountCard(true);
      var synced := SyncManifest(true, true, true, true, true);
      var recording := RecordingStarted(true, true, true, true);
      StartUsb(true, true);
      Installed(true);
    }

    /** A host attaches and completes its first command; the device disconnects and marks the card. */
    method Publish()
      requires Valid() && life == Normal && boot == Running && recorder == Recorder.Recording && pc == Waiting && marks == NO_MARKS
      requires usb == NO_USB.(initialized := true, started := true) && sd == Sd(true, false, false, true, true)
      modifies this`life, this`trail, this`sd, this`usb, this`marks, this`recorder, this`pc
      ensures Valid() && life == HostUnresolved && pc == Transferring && recorder == UsbPrepare
      ensures usb == old(usb).(triggered := true) && sd == Sd(true, true, true, true, true)
      ensures marks == NO_MARKS.(provisional := true, disconnected := true, authorized := true)
      ensures trail == old(trail) + [Change(Normal, HostUnresolved, false, synced, newRecording, false, false)]
    {
      hide Valid, Chained, Legal;
      Attached();
      CommandComplete(true);
      HandleAttach(true);
      Unmount(true, true);
      FinishPrepare(true);
      PublishMark(true, true);
    }

    /** The storage goes to the USB stack, the device reconnects, and the host attaches again. */
    method HandOver()
      requires Valid() && life == HostUnresolved && pc == Transferring && recorder == UsbPrepare
      requires usb == NO_USB.(initialized := true, started := true, triggered := true) && sd == Sd(true, true, true, true, true)
      requires marks == NO_MARKS.(provisional := true, disconnected := true, authorized := true)
      modifies this`sd, this`usb, this`marks, this`recorder, this`pc
      ensures Valid() && pc == Waiting && recorder == UsbSync && HostOwned()
    {
      hide Valid, Chained, Legal;
      Transfer(true, true);
      Reconnect(true);
      Attached();
      HandleHostOwned();
    }

    /** The host has the card, and no release was accepted yet. */
    predicate HostOwned()
      reads this
    {
      && usb == NO_USB.(initialized := true, started := true, triggered := true, storageOwned := true, hostOwned := true)
      && sd == Sd(false, true, true, true, true)
    }

    /** The host asks for the release and gets its response. */
    method Ask(id: string) returns (accepted: Option<bool>, signalled: bool)
      requires Valid() && pc == Waiting && recorder == UsbSync && HostOwned() && accepts == [] && AttemptValid(id)
      modifies this`usb, this`pc, this`recorder, this`accepts, this`teardowns
      ensures Valid() && pc == Uninstalling && accepted == Some(true) && signalled && accepts == [id] && teardowns == 1
      ensures !usb.starting && usb.initialized
    {
      hide Valid, Chained, Legal, AttemptValid;
      assert teardowns == 0 by { NoTeardown(); }
      accepted := AcceptRelease(id);
      signalled := ResponseComplete(id);
      HandleRelease();
    }

    lemma NoTeardown()
      requires Valid()
      ensures accepts == [] ==> teardowns == 0
    {
    }

    /** The device takes the card back for good. */
    method TearDown()
      requires Valid() && pc == Uninstalling && boot == Running && !usb.starting && sd.storage && sd.driver
      modifies this`life, this`trail, this`sd, this`usb, this`marks, this`pc
      ensures Valid() && life == Armed && usb == NO_USB.(initialized := true) && !sd.storage && pc == Waiting
      ensures trail == old(trail) + [Change(HostUnresolved, Armed, false, synced, newRecording, true, true)]
    {
      hide Valid, Chained, Legal;
      assert life == HostUnresolved by { UninstallsMarked(); }
      Uninstall(true);
      ReleaseStorage(true, true);
      CommitArmed(true, true);
      Retire();
    }

    lemma UninstallsMarked()
      requires Valid() && pc == Uninstalling
      ensures life == HostUnresolved
    {
    }

    /** Power returns with WAKE held: the index is synced, a fresh recording starts and completes the recovery. */
    method WakeUp()
      requires Valid() && life == Armed
      modifies this
      ensures Valid() && life == Normal && boot == Running && recorder == Recorder.Recording && first == old(first)
      ensures trail == old(trail) + [Change(Armed, WakePending, true, true, false, true, false), Change(WakePending, Normal, true, true, true, true, false)]
    {
      hide Valid, Chained, Legal;
      Reset(true, true);
      MountCard(true);
      var synced := SyncManifest(true, true, true, true, true);
      var recording := RecordingStarted(true, true, true, true);
    }

    /** From NORMAL to a host that owns the card, one accepted release, ARMED, and back to a NORMAL
        recording after a boot with WAKE held: four changes of the byte. */
    method Cycle(manualWake: bool, id: string) returns (accepted: Option<bool>, signalled: bool)
      requires Valid() && life == Normal && AttemptValid(id)
      modifies this
      ensures Valid() && life == Normal && boot == Running && recorder == Recorder.Recording && accepted == Some(true) && signalled
      ensures |trail| == |old(trail)| + 4 && old(trail) <= trail
      ensures var n := |old(trail)|; trail[n].to == HostUnresolved && trail[n + 1].to == Armed && trail[n + 2].to == WakePending && trail[n + 3].to == Normal
    {
      hide Valid, Chained, Legal, AttemptValid;
      PowerOn(manualWake);
      Publish();
      HandOver();
      accepted, signalled := Ask(id);
      TearDown();
      WakeUp();
    }

    // ----- Every run -----

    /** Any number of steps in any order: callbacks, commands, coordinator steps, boots and resets. */
    method Live(steps: nat)
      requires Valid()
      modifies this
      ensures Valid() && first == old(first)
      ensures old(boot.Down? && life == HostUnresolved) ==> boot.Down? && life == HostUnresolved
    {
      hide Chained, Legal, Coordinated, Staged, Exclusive, BootVisible, Gate;
      for k := 0 to steps
        invariant Valid() && first == old(first)
        invariant old(boot.Down? && life == HostUnresolved) ==> boot.Down? && life == HostUnresolved
      {
        var choice: int, a: bool, b: bool, c: bool, d: bool, e: bool, id: string := *, *, *, *, *, *, *;
        if choice == 0 {
          Reset(a, b);
        } else if choice == 1 {
          MountCard(a);
        } else if choice == 2 {
          var _ := SyncManifest(a, b, c, d, e);
        } else if choice == 3 {
          var _ := RecordingStarted(a, b, c, d);
        } else if choice == 4 {
          StartUsb(a, b);
        } else if choice == 5 {
          Attached();
        } else if choice == 6 {
          Detached();
        } else if choice == 7 {
          CommandComplete(a);
        } else if choice == 8 {
          var _ := AcceptRelease(id);
        } else if choice == 9 {
          var _ := ResponseComplete(id);
        } else if choice == 22 {
          Installed(a);
        } else {
          Coordinate(choice, a, b);
        }
      }
    }

    method Coordinate(choice: int, a: bool, b: bool)
      requires Valid()
      modifies this
      ensures Valid() && first == old(first) && StaysDown()
    {
      hide Chained, Legal, Coordinated, Staged, Exclusive, BootVisible, Gate;
      if choice == 10 {
        Unmount(a, b);
      } else if choice == 11 {
        HandleAttach(a);
      } else if choice == 12 {
        FinishPrepare(a);
      } else if choice == 13 {
        PublishMark(a, b);
      } else if choice == 14 {
        Transfer(a, b);
      } else if choice == 15 {
        Reconnect(a);
      } else if choice == 16 {
        HandleHostOwned();
      } else if choice == 17 {
        HandleRelease();
      } else if choice == 18 {
        Uninstall(a);
      } else if choice == 19 {
        ReleaseStorage(a, b);
      } else if choice == 20 {
        CommitArmed(a, b);
      } else {
        Retire();
      }
    }
  }

  /** After the card was handed to a host, the byte returns to normal only through the whole cycle:
      teardown of driver and storage, a boot with WAKE held and device recovery, a fresh recording. */
  lemma WholeCycle(trail: seq<Change>, first: Life, last: Life, i: nat, j: nat)
    requires Chained(trail, first, last) && i < j < |trail| && trail[i].to == HostUnresolved && trail[j].to == Normal
    ensures i + 3 <= j
    ensures trail[i + 1].to == Armed && trail[i + 1].uninstalled && trail[i + 1].deleted
    ensures trail[i + 2].to == WakePending && trail[i + 2].manualWake && trail[i + 2].synced
    ensures trail[i + 3].to == Normal && trail[i + 3].manualWake && trail[i + 3].newRecording
  {
    assert Legal(trail[i + 1]) && trail[i + 1].from == HostUnresolved;
    if i + 2 < |trail| {
      assert Legal(trail[i + 2]) && trail[i + 2].from == Armed;
      if i + 3 < |trail| {
        assert Legal(trail[i + 3]) && trail[i + 3].from == WakePending;
      }
    }
  }

  const MAX_ATTEMPT: nat := 64

  predicate AttemptChar(c: char) {
    'A' <= c <= 'Z' || 'a' <= c <= 'z' || '0' <= c <= '9' || c in {'.', '_', ':', '-'}
  }

  predicate AttemptValid(id: string) {
    0 < |id| <= MAX_ATTEMPT && forall i :: 0 <= i < |id| ==> AttemptChar(id[i])
  }

  /** usb_release_attempt_id_valid. */
  method IsAttempt(id: string) returns (ok: bool)
    ensures ok == AttemptValid(id)
  {
    if |id| == 0 || |id| > 64 {
      return false;
    }
    for i := 0 to |id|
      invariant forall k :: 0 <= k < i ==> AttemptChar(id[k])
    {
      var c := id[i];
      if !('A' <= c <= 'Z' || 'a' <= c <= 'z' || '0' <= c <= '9' || c == '.' || c == '_' || c == ':' || c == '-') {
        return false;
      }
    }
    ok := true;
  }
}
