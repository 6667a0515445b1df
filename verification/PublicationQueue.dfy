/** The queue and the RAM backing as objects whose lock sections update their fields. */
module PublicationQueue {
  import opened Options
  import Slots = PublicationSlots

  /** The process-wide promise of RAM for stages. */
  class RamLedger {
    var promised: int

    constructor ()
      ensures promised == 0
    {
      promised := 0;
    }
  }

  datatype Backing = Memory | Disk(reason: string)

  class NumericBacking {
    const promised: nat
    var closed: bool

    constructor (promised: nat)
      ensures this.promised == promised && !closed
    {
      this.promised := promised;
      closed := false;
    }

    /** Gives the promise back the first time only. */
    method Close(ledger: RamLedger) returns (first: bool)
      modifies this, ledger
      ensures first == !old(closed) && closed
      ensures ledger.promised == if first then old(ledger.promised) - promised else old(ledger.promised)
    {
      if closed {
        return false;
      }
      closed := true;
      if promised != 0 {
        ledger.promised := ledger.promised - promised;
      }
      first := true;
    }
  }

  /** Admits a whole slot and its pages before anything is created; otherwise the stage goes to disk. */
  method AdmitBacking(ledger: RamLedger, supported: bool, headroom: Option<nat>, limit: nat, page: nat)
    returns (backing: Backing)
    modifies ledger
    ensures backing.Memory? <==> supported && headroom.Some? && headroom.value >= old(ledger.promised) + limit + page
    ensures ledger.promised == if backing.Memory? then old(ledger.promised) + limit + page else old(ledger.promised)
  {
    if !supported {
      return Disk("memfd_platform_unavailable");
    }
    if headroom.None? {
      return Disk("physical_headroom_unavailable");
    }
    if headroom.value < ledger.promised + (limit + page) {
      return Disk("physical_headroom_declined");
    }
    ledger.promised := ledger.promised + (limit + page);
    backing := Memory;
  }

  datatype Admission = Admitted | Wait | Refused

  class ConfidencePublicationQueue {
    const maxPendingBytes: nat
    const stageBytes: nat
    const workers: nat
    var reserved: int
    var peak: int
    var staging: int
    var error: bool
    var closed: bool

    function Bounds(page: nat): Slots.Bounds {
      Slots.Bounds(stageBytes, maxPendingBytes, page, workers)
    }

    function View(): Slots.Queue
      reads this
    {
      Slots.Queue(reserved, staging, error, closed)
    }

    ghost predicate Valid()
      reads this
    {
      stageBytes > 0 && maxPendingBytes >= stageBytes && workers > 0 && reserved <= peak <= maxPendingBytes
    }

    constructor (maxPendingBytes: nat, stageBytes: nat, workers: nat)
      requires stageBytes > 0 && maxPendingBytes >= stageBytes && workers > 0
      ensures Valid() && View() == Slots.Start.queue
      ensures this.maxPendingBytes == maxPendingBytes && this.stageBytes == stageBytes && this.workers == workers
    {
      this.maxPendingBytes, this.stageBytes, this.workers := maxPendingBytes, stageBytes, workers;
      reserved, peak, staging, error, closed := 0, 0, 0, false, false;
    }

    /** One turn of the admission loop: refuse, reserve a slot, or wait. */
    method TryReserve(ghost page: nat) returns (answer: Admission)
      requires Valid()
      modifies this
      ensures Valid()
      ensures answer.Refused? <==> old(error) || old(closed)
      ensures answer.Admitted? <==> Slots.Admissible(old(View()), Bounds(page))
      ensures answer.Admitted? <==> !old(error) && !old(closed) && old(reserved) + stageBytes <= maxPendingBytes
      ensures answer.Admitted? ==> reserved == old(reserved) + stageBytes && staging == old(staging) + 1
      ensures View() == if answer.Admitted? then Slots.Admit(old(View()), Bounds(page)) else old(View())
    {
      if error || closed {
        return Refused;
      }
      if reserved + stageBytes <= maxPendingBytes {
        reserved := reserved + stageBytes;
        staging := staging + 1;
        peak := if peak < reserved then reserved else peak;
        return Admitted;
      }
      answer := Wait;
    }

    method LeaveStaging()
      requires Valid()
      modifies `staging
      ensures Valid() && View() == Slots.Leave(old(View()))
    {
      staging := staging - 1;
    }

    method Release(failed: bool, ghost page: nat)
      requires Valid()
      modifies `reserved, `error
      ensures Valid() && View() == Slots.Release(old(View()), Bounds(page), failed)
      ensures reserved == old(reserved) - stageBytes && error == (old(error) || failed)
    {
      reserved := reserved - stageBytes;
      if failed && !error {
        error := true;
      }
    }

    /** After this no slot is reserved; true once no stage is in work and the publishers may be joined. */
    method Close() returns (settled: bool)
      requires Valid()
      modifies `closed
      ensures Valid() && View() == old(View()).(closed := true) && settled == (staging == 0)
    {
      closed := true;
      settled := staging == 0;
    }
  }
}
