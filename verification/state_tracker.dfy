/** The satellite's DRBD state tracker (StateTracker): the tree of tracked
    DRBD resources and the routing of state-change callbacks to observers.

    Observers register for kinds of events with a 64-bit mask of OBS_* bits
    (a `LongBits.Bits` value); each bit has its own observer slot, and the
    multiplexer delivers each callback to the observers of its slot. */
module DrbdStateTracker {
  import opened Wrappers
  import opened LongBits

  // The tracked DRBD objects, as values. Their attribute parsing
  // (DrbdResource/DrbdConnection/DrbdVolume.update) is not part of this
  // model: a tracked object is its name and its children.

  datatype DrbdVolume = DrbdVolume(volNr: int)

  datatype DrbdConnection = DrbdConnection(peerName: string, volumes: map<int, DrbdVolume>)

  datatype DrbdResource = DrbdResource(resName: string, connections: map<string, DrbdConnection>, volumes: map<int, DrbdVolume>)

  /** The kinds of callbacks, one per OBS_* constant. */
  datatype EventKind =
    | ResCreated | ResDestroyed | Role | PeerRole | VolCreated | VolDestroyed
    | MinorNr | Disk | Repl | ConnCreated | ConnDestroyed | ConnState

  /** The bit position of a kind's OBS_* constant (OBS_RES_CRT = 0x1 is bit
      0, ..., OBS_CONN = 0x800 is bit 11). */
  function ObsBit(kind: EventKind): Bit {
    match kind
    case ResCreated => 0
    case ResDestroyed => 1
    case Role => 2
    case PeerRole => 3
    case VolCreated => 4
    case VolDestroyed => 5
    case MinorNr => 6
    case Disk => 7
    case Repl => 8
    case ConnCreated => 9
    case ConnDestroyed => 10
    case ConnState => 11
  }

  /** The OBS_* constant of a kind, 1L << ObsBit(kind). */
  function ObsMask(kind: EventKind): (m: Bits)
    ensures HighestBit(m) == ObsBit(kind)
  {
    HighestBitUnique({ObsBit(kind)}, ObsBit(kind));
    {ObsBit(kind)}
  }

  type ObserverId = nat

  /** What a callback is about: a resource, and a connection and/or volume
      of it when the callback concerns one. */
  datatype Subject = Subject(resName: string, connName: Option<string>, volNr: Option<int>)

  /** One multiplexer callback: its kind, its subject and the observers it
      was delivered to. */
  datatype Delivery = Delivery(kind: EventKind, subject: Subject, recipients: set<ObserverId>)

  datatype TrackerError = ImplementationError(message: string)

  /** bitToSlot: shift the word right until it is zero, counting the shifts
      after the first; the result is the position of the highest one-bit. */
  method BitToSlot(eventId: Bits) returns (slot: nat)
    ensures slot == HighestBit(eventId)
  {
    slot := 0;
    var value := ShiftRight(eventId, 1);
    while value != {}
      invariant value == ShiftRight(eventId, slot + 1)
      invariant slot == 0 || exists b: Bit :: b in eventId && b >= slot
      decreases 64 - slot
    {
      var w :| w in value;
      assert (w + slot + 1) as Bit in eventId;
      slot := slot + 1;
      value := ShiftRight(value, 1);
    }
    ShiftRightEmpty(eventId, slot + 1);
    if slot != 0 {
      var b: Bit :| b in eventId && b >= slot;
      assert b == slot;
    }
    HighestBitUnique(eventId, slot);
  }

  /** initBitToSlot: the slot of the bit, and the new slot count — one more
      than the larger of the old count and the slot. */
  method InitBitToSlot(eventId: Bits, obsSlotCount: nat) returns (slot: nat, newSlotCount: nat)
    ensures slot == HighestBit(eventId)
    ensures newSlotCount == (if slot > obsSlotCount then slot else obsSlotCount) + 1
  {
    slot := BitToSlot(eventId);
    newSlotCount := obsSlotCount;
    if slot > newSlotCount {
      newSlotCount := slot;
    }
    newSlotCount := newSlotCount + 1;
  }

  /** The slot numbering of the StateTracker constructor: starting from a
      slot count of 1, initBitToSlot is applied to the twelve OBS_* bits in
      order. Slot k is bit k, and the count ends at 13. */
  method InitSlots() returns (slots: seq<nat>, obsSlotCount: nat)
    ensures |slots| == 12 && forall k :: 0 <= k < 12 ==> slots[k] == k
    ensures obsSlotCount == 13
  {
    obsSlotCount := 1;
    var slot;
    slot, obsSlotCount := InitBitToSlot(ObsMask(ResCreated), obsSlotCount);
    assert slot == 0 && obsSlotCount == 2;
    var s0 := slot;
    slot, obsSlotCount := InitBitToSlot(ObsMask(ResDestroyed), obsSlotCount);
    assert slot == 1 && obsSlotCount == 3;
    var s1 := slot;
    slot, obsSlotCount := InitBitToSlot(ObsMask(Role), obsSlotCount);
    assert slot == 2 && obsSlotCount == 4;
    var s2 := slot;
    slot, obsSlotCount := InitBitToSlot(ObsMask(PeerRole), obsSlotCount);
    assert slot == 3 && obsSlotCount == 5;
    var s3 := slot;
    slot, obsSlotCount := InitBitToSlot(ObsMask(VolCreated), obsSlotCount);
    assert slot == 4 && obsSlotCount == 6;
    var s4 := slot;
    slot, obsSlotCount := InitBitToSlot(ObsMask(VolDestroyed), obsSlotCount);
    assert slot == 5 && obsSlotCount == 7;
    var s5 := slot;
    slot, obsSlotCount := InitBitToSlot(ObsMask(MinorNr), obsSlotCount);
    assert slot == 6 && obsSlotCount == 8;
    var s6 := slot;
    slot, obsSlotCount := InitBitToSlot(ObsMask(Disk), obsSlotCount);
    assert slot == 7 && obsSlotCount == 9;
    var s7 := slot;
    slot, obsSlotCount := InitBitToSlot(ObsMask(Repl), obsSlotCount);
    assert slot == 8 && obsSlotCount == 10;
    var s8 := slot;
    slot, obsSlotCount := InitBitToSlot(ObsMask(ConnCreated), obsSlotCount);
    assert slot == 9 && obsSlotCount == 11;
    var s9 := slot;
    slot, obsSlotCount := InitBitToSlot(ObsMask(ConnDestroyed), obsSlotCount);
    assert slot == 10 && obsSlotCount == 12;
    var s10 := slot;
    slot, obsSlotCount := InitBitToSlot(ObsMask(ConnState), obsSlotCount);
    assert slot == 11 && obsSlotCount == 13;
    var s11 := slot;
    slots := [s0, s1, s2, s3, s4, s5, s6, s7, s8, s9, s10, s11];
  }

  /** Slots that hold exactly the observers whose mask has the slot's bit. */
  ghost predicate ExactOn(slots: seq<set<ObserverId>>, obsMaskMap: map<ObserverId, Bits>) {
    forall o, b: Bit :: b < |slots| ==> (o in slots[b] <==> o in obsMaskMap && b in obsMaskMap[o])
  }

  /** An observer that leaves the slots of its recorded mask and loses its
      record leaves exact slots exact, and is in no slot afterwards. */
  lemma LeaveKeepsExact(oldSlots: seq<set<ObserverId>>, slots: seq<set<ObserverId>>, oldMap: map<ObserverId, Bits>, obs: ObserverId)
    requires ExactOn(oldSlots, oldMap) && |slots| == |oldSlots| <= 64
    requires forall k: Bit :: k < |slots| ==>
      slots[k] == if obs in oldMap && k in oldMap[obs] then oldSlots[k] - {obs} else oldSlots[k]
    ensures ExactOn(slots, oldMap - {obs})
    ensures forall k :: 0 <= k < |slots| ==> obs !in slots[k]
  {
    forall o, b: Bit | b < |slots|
      ensures o in slots[b] <==> o in oldMap - {obs} && b in (oldMap - {obs})[o]
    {
      assert o in oldSlots[b] <==> o in oldMap && b in oldMap[o];
    }
    forall k | 0 <= k < |slots|
      ensures obs !in slots[k]
    {
      var b: Bit := k;
      assert obs in oldSlots[b] <==> obs in oldMap && b in oldMap[obs];
    }
  }

  /** The mask (1 << n) - 1 of the constructor, for a count n whose int shift
      does not overflow: the bits below n. */
  function LowBitsMask(n: nat): (m: Bits)
    requires n <= 30
    ensures forall b: Bit :: b in m <==> b < n
  {
    BitsBelow(n)
  }

  class StateTracker {
    const OBS_RES_CRT_SLOT: nat
    const OBS_RES_DSTR_SLOT: nat
    const OBS_ROLE_SLOT: nat
    const OBS_PEER_ROLE_SLOT: nat
    const OBS_VOL_CRT_SLOT: nat
    const OBS_VOL_DSTR_SLOT: nat
    const OBS_MINOR_SLOT: nat
    const OBS_DISK_SLOT: nat
    const OBS_REPL_SLOT: nat
    const OBS_CONN_CRT_SLOT: nat
    const OBS_CONN_DSTR_SLOT: nat
    const OBS_CONN_SLOT: nat

    /** Final value of the slot counter the constructor advances. */
    const obsSlotCount: nat
    /** Per slot, the observers registered for it. */
    const observers: array<set<ObserverId>>
    const validEventsMask: Bits
    /** The mask each observer last registered with. */
    var obsMaskMap: map<ObserverId, Bits>
    /** Observers of state availability, in registration order. */
    var drbdStateChangeObservers: seq<nat>
    var resList: map<string, DrbdResource>
    /** The callbacks the multiplexer delivered, in order. */
    var deliveries: seq<Delivery>

    function SlotOf(kind: EventKind): nat {
      match kind
      case ResCreated => OBS_RES_CRT_SLOT
      case ResDestroyed => OBS_RES_DSTR_SLOT
      case Role => OBS_ROLE_SLOT
      case PeerRole => OBS_PEER_ROLE_SLOT
      case VolCreated => OBS_VOL_CRT_SLOT
      case VolDestroyed => OBS_VOL_DSTR_SLOT
      case MinorNr => OBS_MINOR_SLOT
      case Disk => OBS_DISK_SLOT
      case Repl => OBS_REPL_SLOT
      case ConnCreated => OBS_CONN_CRT_SLOT
      case ConnDestroyed => OBS_CONN_DSTR_SLOT
      case ConnState => OBS_CONN_SLOT
    }

    /** Each kind's slot is its bit position, the valid mask admits exactly
        the slots that exist, and every recorded mask is backed by slot
        membership. */
    ghost predicate Valid()
      reads this`obsMaskMap, observers
    {
      SlotsNumbered() && MasksRecorded() && observers.Length == obsSlotCount &&
      MembershipBacked()
    }

    /** Each kind's slot is its bit position, 13 slots were counted and the
        valid mask admits exactly their bits. */
    ghost predicate SlotsNumbered() {
      (forall kind :: SlotOf(kind) == ObsBit(kind)) &&
      obsSlotCount == 13 && validEventsMask == BitsBelow(obsSlotCount)
    }

    /** Recorded masks are non-empty and within the valid mask. */
    ghost predicate MasksRecorded()
      reads this`obsMaskMap
    {
      forall o :: o in obsMaskMap ==> obsMaskMap[o] != {} && obsMaskMap[o] <= validEventsMask
    }

    /** Every bit of a recorded mask has the observer in its slot. */
    ghost predicate MembershipBacked()
      reads this`obsMaskMap, observers
    {
      forall o, b: Bit :: o in obsMaskMap && b in obsMaskMap[o] && b < observers.Length ==> o in observers[b]
    }

    /** Slot membership is exactly what the recorded masks say: an observer
        is in a slot iff its recorded mask has the slot's bit. */
    ghost predicate Exact()
      reads this`obsMaskMap, observers
    {
      ExactOn(observers[..], obsMaskMap)
    }

    /** The constructor numbers the twelve OBS_* bits from a slot count of 1;
        as every call adds one, the count ends at 13. */
    constructor ()
      ensures Valid() && fresh(observers)
      ensures forall k :: 0 <= k < observers.Length ==> observers[k] == {}
      ensures obsMaskMap == map[] && resList == map[] && drbdStateChangeObservers == [] && deliveries == []
      ensures Exact()
    {
      var slots, count := InitSlots();
      OBS_RES_CRT_SLOT := slots[0];
      OBS_RES_DSTR_SLOT := slots[1];
      OBS_ROLE_SLOT := slots[2];
      OBS_PEER_ROLE_SLOT := slots[3];
      OBS_VOL_CRT_SLOT := slots[4];
      OBS_VOL_DSTR_SLOT := slots[5];
      OBS_MINOR_SLOT := slots[6];
      OBS_DISK_SLOT := slots[7];
      OBS_REPL_SLOT := slots[8];
      OBS_CONN_CRT_SLOT := slots[9];
      OBS_CONN_DSTR_SLOT := slots[10];
      OBS_CONN_SLOT := slots[11];
      obsSlotCount := count;
      observers := new set<ObserverId>[count](_ => {});
      obsMaskMap := map[];
      resList := map[];
      validEventsMask := LowBitsMask(count);
      drbdStateChangeObservers := [];
      deliveries := [];
      new;
      assert OBS_RES_CRT_SLOT == 0 && OBS_RES_DSTR_SLOT == 1 && OBS_ROLE_SLOT == 2 && OBS_PEER_ROLE_SLOT == 3;
      assert OBS_VOL_CRT_SLOT == 4 && OBS_VOL_DSTR_SLOT == 5 && OBS_MINOR_SLOT == 6 && OBS_DISK_SLOT == 7;
      assert OBS_REPL_SLOT == 8 && OBS_CONN_CRT_SLOT == 9 && OBS_CONN_DSTR_SLOT == 10 && OBS_CONN_SLOT == 11;
    }

    /** Every bit the valid mask admits names an existing slot. */
    lemma AdmittedBitsHaveSlots(b: Bit)
      requires Valid() && b in validEventsMask
      ensures b < observers.Length
    {
    }

    /** getResource: a null name is an implementation error; otherwise the
        tracked resource of that name, if any. */
    function GetResource(name: Option<string>): (r: Result<Option<DrbdResource>, TrackerError>)
      reads this
      ensures r.Failure? <==> name.None?
      ensures r.Success? ==> (r.value.Some? <==> name.value in resList)
      ensures r.Success? && r.value.Some? ==> r.value.value == resList[name.value]
    {
      match name
      case None => Failure(ImplementationError("Attempt to obtain a DrbdResource object with name == null"))
      case Some(n) => Success(if n in resList then Some(resList[n]) else None)
    }

    /** putResource: track the resource under its name, replacing any
        earlier one. */
    method PutResource(resource: DrbdResource)
      modifies this`resList
      ensures resList == old(resList)[resource.resName := resource]
      ensures GetResource(Some(resource.resName)) == Success(Some(resource))
    {
      resList := resList[resource.resName := resource];
    }

    /** removeResource: a null name is an implementation error; otherwise the
        entry is removed and returned, or null when there was none. */
    method RemoveResource(name: Option<string>) returns (r: Result<Option<DrbdResource>, TrackerError>)
      modifies this`resList
      ensures r.Failure? <==> name.None?
      ensures r.Success? ==> r.value == old(GetResource(name)).value
      ensures name.None? ==> resList == old(resList)
      ensures name.Some? ==> resList == old(resList) - {name.value}
    {
      if name.None? {
        return Failure(ImplementationError("Attempt to remove a DrbdResource object with name == null"));
      }
      r := GetResource(name);
      resList := resList - {name.value};
    }

    /** addObserver: the mask is cut to the valid events; a mask left empty
        changes nothing; otherwise the cut mask is recorded and the observer
        joins the slot of every bit in it, and no other slot. Slots of an
        earlier registration are kept. */
    method AddObserver(obs: ObserverId, eventMask: Bits)
      requires Valid()
      modifies this`obsMaskMap, observers
      ensures Valid()
      ensures obsMaskMap == if eventMask * validEventsMask == {} then old(obsMaskMap) else old(obsMaskMap)[obs := eventMask * validEventsMask]
      ensures forall k: Bit :: k < observers.Length ==>
        observers[k] == if k in eventMask * validEventsMask then old(observers[k]) + {obs} else old(observers[k])
      ensures old(Exact()) && obs !in old(obsMaskMap) ==> Exact()
    {
      var safeEventMask := eventMask * validEventsMask;
      if safeEventMask != {} {
        obsMaskMap := obsMaskMap[obs := safeEventMask];
        ScanSlots(obs, safeEventMask, true);
      }
    }

    /** removeObserver: the observer leaves the slot of every bit of its
        recorded mask and its record is dropped; an unregistered observer
        changes nothing. */
    method RemoveObserver(obs: ObserverId)
      requires Valid()
      modifies this`obsMaskMap, observers
      ensures Valid()
      ensures obsMaskMap == old(obsMaskMap) - {obs}
      ensures forall k: Bit :: k < observers.Length ==>
        observers[k] == if obs in old(obsMaskMap) && k in old(obsMaskMap)[obs] then old(observers[k]) - {obs} else old(observers[k])
      ensures old(Exact()) ==> Exact() && forall k: Bit :: k < observers.Length ==> obs !in observers[k]
    {
      if obs in obsMaskMap {
        var eventMask := obsMaskMap[obs];
        ScanSlots(obs, eventMask, false);
      }
      obsMaskMap := obsMaskMap - {obs};
      if old(Exact()) {
        LeaveKeepsExact(old(observers[..]), observers[..], old(obsMaskMap), obs);
      }
    }

    /** The bit-scan loop of addObserver (join) and removeObserver (leave):
        the scan bit moves up from bit 0 and is cleared from the remaining
        mask, so the loop ends once every one-bit was visited; the observer
        joins or leaves the slot of each one-bit. */
    method ScanSlots(obs: ObserverId, eventMask: Bits, join: bool)
      requires forall b: Bit :: b in eventMask ==> b < observers.Length
      modifies observers
      ensures forall k: Bit :: k < observers.Length ==>
        observers[k] == if k !in eventMask then old(observers[k])
          else if join then old(observers[k]) + {obs} else old(observers[k]) - {obs}
    {
      var mask := eventMask;
      var scan: nat := 0;
      while mask != {}
        invariant scan <= 64
        invariant forall b: Bit :: b in mask <==> b in eventMask && b >= scan
        invariant forall k: Bit :: k < observers.Length ==>
          observers[k] == if k !in eventMask || k >= scan then old(observers[k])
            else if join then old(observers[k]) + {obs} else old(observers[k]) - {obs}
        decreases 64 - scan
      {
        var w :| w in mask;
        var scanMask: Bits := {scan as Bit};
        var eventId := mask * scanMask;
        if eventId != {} {
          var slot := BitToSlot(eventId);
          assert scan in eventId;
          if join {
            observers[slot] := observers[slot] + {obs};
          } else {
            observers[slot] := observers[slot] - {obs};
          }
        }
        mask := mask - scanMask;
        scan := scan + 1;
      }
    }

    /** addObserver as evidently intended: a non-empty registration first
        withdraws the observer's earlier one, so its slots always follow its
        recorded mask. */
    method ReplaceObserver(obs: ObserverId, eventMask: Bits)
      requires Valid()
      modifies this`obsMaskMap, observers
      ensures Valid()
      ensures obsMaskMap == if eventMask * validEventsMask == {} then old(obsMaskMap) else old(obsMaskMap)[obs := eventMask * validEventsMask]
      ensures forall k: Bit :: k < observers.Length ==>
        observers[k] == if eventMask * validEventsMask == {} then old(observers[k])
          else if k in eventMask * validEventsMask then old(observers[k]) + {obs}
          else if obs in old(obsMaskMap) && k in old(obsMaskMap)[obs] then old(observers[k]) - {obs}
          else old(observers[k])
      ensures old(Exact()) ==> Exact()
    {
      if eventMask * validEventsMask != {} {
        RemoveObserver(obs);
        AddObserver(obs, eventMask);
      }
    }

    method AddDrbdStateChangeObserver(obs: nat)
      modifies this`drbdStateChangeObservers
      ensures drbdStateChangeObservers == old(drbdStateChangeObservers) + [obs]
    {
      drbdStateChangeObservers := drbdStateChangeObservers + [obs];
    }

    /** A ResObsMux callback: delivered to the observers of the kind's own
        slot, which include every observer whose recorded mask has the kind's
        bit. */
    method Deliver(kind: EventKind, subject: Subject)
      requires Valid()
      modifies this`deliveries
      ensures deliveries == old(deliveries) + [Delivery(kind, subject, observers[ObsBit(kind)])]
      ensures forall o :: o in obsMaskMap && ObsBit(kind) in obsMaskMap[o] ==> o in deliveries[|deliveries| - 1].recipients
    {
      deliveries := deliveries + [Delivery(kind, subject, observers[SlotOf(kind)])];
    }
  }

  /** Re-registering an observer with a smaller mask and then removing it
      leaves it in the slots only the first mask had. */
  method StaleSlotAfterReAdd() returns (stillInRoleSlot: bool, stillRecorded: bool)
    ensures stillInRoleSlot && !stillRecorded
  {
    var tracker := new StateTracker();
    var first: Bits := {ObsBit(Role), ObsBit(Disk)};
    var second: Bits := {ObsBit(Disk)};
    assert ObsBit(Role) in tracker.validEventsMask && ObsBit(Disk) in tracker.validEventsMask;
    assert first * tracker.validEventsMask == first;
    assert second * tracker.validEventsMask == second;
    tracker.AddObserver(7, first);
    assert 7 in tracker.observers[2];
    tracker.AddObserver(7, second);
    assert 7 in tracker.observers[2];
    assert tracker.obsMaskMap[7] == second;
    tracker.RemoveObserver(7);
    stillInRoleSlot := 7 in tracker.observers[ObsBit(Role)];
    stillRecorded := 7 in tracker.obsMaskMap;
  }

  /** With the intended re-registration, the same sequence of calls leaves
      the observer in no slot. */
  method NoStaleSlotAfterReplace() returns (stillInRoleSlot: bool, stillRecorded: bool)
    ensures !stillInRoleSlot && !stillRecorded
  {
    var tracker := new StateTracker();
    var first: Bits := {ObsBit(Role), ObsBit(Disk)};
    var second: Bits := {ObsBit(Disk)};
    assert ObsBit(Role) in tracker.validEventsMask && ObsBit(Disk) in tracker.validEventsMask;
    assert second * tracker.validEventsMask == second;
    tracker.ReplaceObserver(7, first);
    tracker.ReplaceObserver(7, second);
    tracker.RemoveObserver(7);
    stillInRoleSlot := 7 in tracker.observers[ObsBit(Role)];
    stillRecorded := 7 in tracker.obsMaskMap;
  }
}
