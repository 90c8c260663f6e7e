# LinStor core, modelled in Dafny

This project models a part of LinStor, the storage management system for DRBD-replicated volumes. It covers the
following pieces:

- **The satellite's DRBD state tracking.**
  - `EventsTracker` interprets the lines of `drbdsetup events2 all`.
  - `StateTracker` keeps the tree of DRBD resources, connections and volumes. It dispatches callbacks to the
    observers registered for each event kind.
- **The controller's snapshot API calls** (`CtrlSnapshotApiCallHandler`): create and delete a snapshot, and answer a
  satellite that asks for an in-progress snapshot.
- **The controller's satellite update caller** (`CtrlSatelliteUpdateCaller`). It asks every satellite that holds a
  resource of a changed definition to apply the change. It deserialises the replies and merges the reply streams.
  Failures become ordinary responses followed by one delayed error.
- **`OutputProxy`**: the reader that splits an external process's output into delimiter-terminated records.
- **Core objects and helpers:**
  - the transactional 64-bit state flags (`StateFlagsBits`);
  - the node connection object (`NodeConnection`);
  - the controller's per-satellite state map (`SatelliteState`);
  - the volume number allocator (`VolumeNumberAlloc`);
  - event-stream forwarding (`LinstorTriggerableEvent.forwardEvent`).

Each source file becomes one Dafny module. Code that updates objects in place is modelled as a class:

- `StateTracker`, `EventsTracker`, `OutputProxy` (a byte `array` buffer);
- `StateFlagsBits`, `NodeConnection`, `SatelliteState`;
- the snapshot controller.

Each of these classes has `modifies` frames. Its methods are proved against pure specification functions: the
`*Effect` functions of the events tracker, `SplitRecords` for the proxy, and `CreateSnapshotPlan` and
`DeleteSnapshotPlan` for snapshots. The properties the system promises are then proved about those functions.

Shared helpers are kept in their own modules:

- `Wrappers`: Option, Result and Outcome.
- `JavaText`: `StringTokenizer`, `String.indexOf`, `Integer.parseInt` and `String.compareTo`.
- `LongBits`: a Java `long` used as a bit mask, represented as the set of positions of its one-bits.
- `Access`: object protection reduced to an access-control list.

## Model

| member | source | states |
|---|---|---|
| TriggerableEvent.ForwardEvent | server/src/main/java/com/linbit/linstor/event/LinstorTriggerableEvent.java:14-30 | A known action selects exactly the handler for that action, for the given object. The value is passed only to triggerEvent. An unknown action is an ImplementationError whose message names the action. |
| TriggerableEvent.ForwardActionOf | server/src/main/java/com/linbit/linstor/event/LinstorTriggerableEvent.java:14-30 | Every handler call is reached by forwarding its own action name. So the three actions and the three handlers correspond one to one. |
| VolumeNumberAlloc.FirstFree | src/com/linbit/linstor/VolumeNumberAlloc.java:33-35 | The result is the smallest unoccupied number at or above the lower bound and within range. There is none exactly when every number in the range is occupied. |
| VolumeNumberAlloc.GetFreeVolumeNumber | src/com/linbit/linstor/VolumeNumberAlloc.java:23-45 | The result is the least free number of [minVolNr, maxVolNr] and is a valid volume number. ExhaustedPool is returned exactly when the whole range is occupied. |
| VolumeNumberAlloc.FullRangeExhausted | src/com/linbit/linstor/VolumeNumberAlloc.java:18-28 | With 0..N-1 occupied, the range [0, N-1] reports an exhausted pool. |
| VolumeNumberAlloc.NextAfterPrefix | src/com/linbit/linstor/VolumeNumberAlloc.java:18-28 | With 0..N-1 occupied and a range reaching past them, N is allocated. |
| SatelliteStates.SatelliteState.Copy | server/src/main/java/com/linbit/linstor/satellitestate/SatelliteState.java:19-25 | The copy holds the same resource states as the original. |
| SatelliteStates.SatelliteState.GetFromResource | server/src/main/java/com/linbit/linstor/satellitestate/SatelliteState.java:32-37 | An absent resource reads as null. Otherwise the getter reads the resource's field. |
| SatelliteStates.SatelliteState.SetOnResource | server/src/main/java/com/linbit/linstor/satellitestate/SatelliteState.java:39-45 | The entry is created on demand. Its fields are the old fields (none for a new entry) with the setter applied: the field reads back the value written (a null value clears it) and every other field is kept. The volume states and every other resource are unchanged. |
| SatelliteStates.SatelliteState.UnsetOnResource | server/src/main/java/com/linbit/linstor/satellitestate/SatelliteState.java:47-62 | An absent resource changes nothing. Otherwise the field is cleared, the other fields and the volumes are kept, and the entry stays exactly when something is left in it. Other resources are unchanged. |
| SatelliteStates.SatelliteState.GetFromVolume | server/src/main/java/com/linbit/linstor/satellitestate/SatelliteState.java:64-83 | An absent resource reads as null. Otherwise the value is the resource state's reading of the volume field. |
| SatelliteStates.SatelliteState.SetOnVolume | server/src/main/java/com/linbit/linstor/satellitestate/SatelliteState.java:85-94 | The resource entry is created on demand and becomes the resource state's setOnVolume of its old state. So the volume field reads back the value, the volume's other fields, the other volumes and the resource's own fields are kept. Other resources are unchanged. |
| SatelliteStates.SatelliteState.UnsetOnVolume | server/src/main/java/com/linbit/linstor/satellitestate/SatelliteState.java:96-112 | An absent resource changes nothing. Otherwise the resource state becomes its unsetOnVolume result, and the entry stays exactly when that result is not empty. Other resources are unchanged. |
| SatelliteStates.ResourceSetOnVolume | server/src/main/java/com/linbit/linstor/satellitestate/SatelliteState.java:92-93 | The volume exists afterwards. Its fields are its old fields (none for a new volume) with the field set, so every other field is kept. Other volumes and the resource fields are kept. |
| SatelliteStates.ResourceUnsetOnVolume | server/src/main/java/com/linbit/linstor/satellitestate/SatelliteState.java:105 | The volume field reads null afterwards, and the volume's other fields are kept. The volume stays exactly when it existed and had another field. Other volumes and the resource fields are kept. |
| SatelliteStates.VolumeUnsetUndoesSet | server/src/main/java/com/linbit/linstor/satellitestate/SatelliteState.java:85-112 | In a state without empty volumes, setting a field that was unset and then unsetting it gives back the original resource state. This holds whether the volume was absent or held other fields. |
| SatelliteStates.UnsetAfterSetOnVolume | server/src/main/java/com/linbit/linstor/satellitestate/SatelliteState.java:85-112 | For every resource state, unsetting a volume field right after setting it has the same result as unsetting it directly. |
| NodeConnections.Ordered | server/src/main/java/com/linbit/linstor/core/objects/NodeConnection.java:64-73 | The two nodes are returned as a pair, with the lower name (by String.compareTo) first. |
| NodeConnections.OrderedSymmetric | server/src/main/java/com/linbit/linstor/core/objects/NodeConnection.java:91-112 | For distinct names the order of the arguments does not matter. So get(a, b) and get(b, a) find the same connection. |
| NodeConnections.NodeConnection.constructor | server/src/main/java/com/linbit/linstor/core/objects/NodeConnection.java:47-89 | The source node is the one whose name compares lower. The props path is built from source then target. The object starts not deleted. |
| NodeConnections.Get | server/src/main/java/com/linbit/linstor/core/objects/NodeConnection.java:91-112 | Fails with access denied exactly when the lower-named node's protection refuses VIEW. Otherwise the connection is found exactly when that node keeps one for the other node, and it is that one. |
| NodeConnections.GetSymmetric | server/src/main/java/com/linbit/linstor/core/objects/NodeConnection.java:91-112 | For nodes with different names, get(a, b) and get(b, a) give the same connection or the same denial. |
| NodeConnections.NodeConnection.GetUuid | server/src/main/java/com/linbit/linstor/core/objects/NodeConnection.java:121-125 | Fails with access to deleted data exactly when deleted. Otherwise returns the object id. |
| NodeConnections.NodeConnection.GetSourceNode | server/src/main/java/com/linbit/linstor/core/objects/NodeConnection.java:127-132 | Fails when deleted. Otherwise it succeeds exactly when the source node's protection grants VIEW, and returns the source node. |
| NodeConnections.NodeConnection.GetTargetNode | server/src/main/java/com/linbit/linstor/core/objects/NodeConnection.java:134-139 | Fails when deleted. Otherwise it succeeds exactly when the source node's protection grants VIEW (the source checks the source node here), and returns the target node. |
| NodeConnections.NodeConnection.GetProps | server/src/main/java/com/linbit/linstor/core/objects/NodeConnection.java:141-150 | Fails when deleted. Otherwise returns the props container at the connection's path, guarded by both nodes' protections. |
| NodeConnections.NodeConnection.Delete | server/src/main/java/com/linbit/linstor/core/objects/NodeConnection.java:152-169 | A second delete does nothing. Otherwise it succeeds exactly when both nodes grant CHANGE. Success removes the connection from both nodes and deletes the props and the database row. Failure changes nothing. |
| NodeConnections.NodeConnection.CompareTo | server/src/main/java/com/linbit/linstor/core/objects/NodeConnection.java:179-184 | The corrected comparison is zero exactly when both joined endpoint names are equal. It is the negation of the comparison with the operands swapped. |
| NodeConnections.CompareAsWrittenNotAntisymmetric | server/src/main/java/com/linbit/linstor/core/objects/NodeConnection.java:179-184 | The comparison as written ranks (a,c) above (ab,ac) and also (ab,ac) above (a,c). |
| NodeConnections.CompareKeysAntisymmetric | server/src/main/java/com/linbit/linstor/core/objects/NodeConnection.java:179-184 | The corrected key comparison is antisymmetric and zero on equal endpoints. |
| StateFlags.StateFlagsBits.constructor | src/com/linbit/drbdmanage/stateflags/StateFlagsBits.java:34-58 | Committed and pending flags both start at the initial flags. There is no transaction manager yet. |
| StateFlags.StateFlagsBits.SetFlags | src/com/linbit/drbdmanage/stateflags/StateFlagsBits.java:237-252 | The pending value becomes the new bits. Before initialisation it is committed at once. After initialisation it is persisted only when a driver and a transaction manager are attached. |
| StateFlags.StateFlagsBits.EnableAllFlags | src/com/linbit/drbdmanage/stateflags/StateFlagsBits.java:60-67 | Requires CHANGE access and is a no-op without it. With it, every valid flag is set in the pending value. |
| StateFlags.StateFlagsBits.DisableAllFlags | src/com/linbit/drbdmanage/stateflags/StateFlagsBits.java:69-76 | Requires CHANGE access. With it, the pending value is cleared. |
| StateFlags.StateFlagsBits.EnableFlags | src/com/linbit/drbdmanage/stateflags/StateFlagsBits.java:78-87 | Requires CHANGE access. With it, the given flags are ORed in, restricted to the valid mask, so no invalid bit is ever set. |
| StateFlags.StateFlagsBits.DisableFlags | src/com/linbit/drbdmanage/stateflags/StateFlagsBits.java:89-98 | Requires CHANGE access. With it, the bits of the given flags are cleared from the pending value. |
| StateFlags.StateFlagsBits.EnableFlagsExcept | src/com/linbit/drbdmanage/stateflags/StateFlagsBits.java:100-109 | Requires CHANGE access. With it, every valid bit outside the given flags is set. |
| StateFlags.StateFlagsBits.DisableFlagsExcept | src/com/linbit/drbdmanage/stateflags/StateFlagsBits.java:111-120 | Requires CHANGE access. With it, only the bits of the given flags are kept. |
| StateFlags.StateFlagsBits.IsSet | src/com/linbit/drbdmanage/stateflags/StateFlagsBits.java:122-131 | Requires VIEW access. True exactly when every given flag is set in the pending value. |
| StateFlags.StateFlagsBits.IsUnset | src/com/linbit/drbdmanage/stateflags/StateFlagsBits.java:133-142 | Requires VIEW access. True exactly when no given flag shares a bit with the pending value. |
| StateFlags.StateFlagsBits.IsSomeSet | src/com/linbit/drbdmanage/stateflags/StateFlagsBits.java:144-153 | Requires VIEW access. The negation of isUnset. |
| StateFlags.StateFlagsBits.IsSomeUnset | src/com/linbit/drbdmanage/stateflags/StateFlagsBits.java:155-164 | Requires VIEW access. The negation of isSet. |
| StateFlags.StateFlagsBits.GetFlagsBits | src/com/linbit/drbdmanage/stateflags/StateFlagsBits.java:166-173 | Requires VIEW access. Returns the pending (not the committed) flags. |
| StateFlags.StateFlagsBits.GetValidFlagsBits | src/com/linbit/drbdmanage/stateflags/StateFlagsBits.java:215-222 | Requires VIEW access. Returns the valid mask. |
| StateFlags.StateFlagsBits.Initialized | src/com/linbit/drbdmanage/stateflags/StateFlagsBits.java:175-179 | Switches to transactional mode. From then on, mutations stay pending until commit. |
| StateFlags.StateFlagsBits.SetConnection | src/com/linbit/drbdmanage/stateflags/StateFlagsBits.java:205-213 | Attaches or detaches the transaction manager. |
| StateFlags.StateFlagsBits.Commit | src/com/linbit/drbdmanage/stateflags/StateFlagsBits.java:187-191 | Committed flags take the pending value, so the object is no longer dirty. |
| StateFlags.StateFlagsBits.Rollback | src/com/linbit/drbdmanage/stateflags/StateFlagsBits.java:193-197 | The pending value returns to the committed value, so the object is no longer dirty. |
| StateFlags.GetMask | src/com/linbit/drbdmanage/stateflags/StateFlagsBits.java:224-235 | A null array gives 0. Otherwise the result is the OR of the flag values. |
| StateFlags.AllSetIffEachSet | src/com/linbit/drbdmanage/stateflags/StateFlagsBits.java:122-131 | A value contains the whole mask exactly when it contains every single flag, in both directions. |
| StateFlags.NoneSetIffEachUnset | src/com/linbit/drbdmanage/stateflags/StateFlagsBits.java:133-142 | A value misses the mask exactly when it misses every single flag. |
| StateFlags.MaskOfCovers | src/com/linbit/drbdmanage/stateflags/StateFlagsBits.java:224-235 | Every flag is contained in the mask of a list that holds it. |
| StateFlags.MaskOfExact | src/com/linbit/drbdmanage/stateflags/StateFlagsBits.java:224-235 | Every bit of the mask comes from some flag. |
| StateFlags.EnableSetsFlags | src/com/linbit/drbdmanage/stateflags/StateFlagsBits.java:78-87 | Enabling valid flags sets each of them, sets no bit outside the valid mask, and keeps the valid pending bits. |
| StateFlags.DisableClearsFlags | src/com/linbit/drbdmanage/stateflags/StateFlagsBits.java:89-98 | Disabling clears each given flag and leaves every bit outside them as it was. |
| StateFlags.ExceptVariants | src/com/linbit/drbdmanage/stateflags/StateFlagsBits.java:100-120 | enableFlagsExcept sets every valid bit outside the flags and keeps the pending bits. disableFlagsExcept clears every bit outside the flags and keeps the flags' own bits. |
| StateFlags.RestoreFlags | src/com/linbit/drbdmanage/stateflags/StateFlagsBits.java:254-265 | Exactly the flags all of whose bits are set in the mask are restored. |
| StateFlags.RestoreAfterMask | src/com/linbit/drbdmanage/stateflags/StateFlagsBits.java:224-265 | Restoring the stored mask of some chosen flags gives back every chosen flag (a round trip). |
| LongBits.HighestBit | src/com/linbit/linstor/drbdstate/StateTracker.java:179-187 | The result is a one-bit of the word that bounds all of its one-bits (0 for the word 0). |
| LongBits.HighestBitUnique | src/com/linbit/linstor/drbdstate/StateTracker.java:179-187 | Those two properties determine the highest bit uniquely. |
| DrbdStateTracker.ObsMask | src/com/linbit/linstor/drbdstate/StateTracker.java:22-59 | The bit scan maps each OBS_* constant to the position of its bit, so every event kind has its own slot. |
| DrbdStateTracker.BitToSlot | src/com/linbit/linstor/drbdstate/StateTracker.java:179-187 | The shift loop counts up to the position of the highest one-bit. |
| DrbdStateTracker.InitBitToSlot | src/com/linbit/linstor/drbdstate/StateTracker.java:168-177 | Returns the bit's slot. The slot counter becomes the larger of the slot and the counter, plus one. |
| DrbdStateTracker.InitSlots | src/com/linbit/linstor/drbdstate/StateTracker.java:91-105 | The twelve OBS_* bits get slots 0..11, and the slot counter ends at 13. |
| DrbdStateTracker.LowBitsMask | src/com/linbit/linstor/drbdstate/StateTracker.java:116-117 | (1 << n) - 1 admits exactly the bits below n. |
| DrbdStateTracker.StateTracker.constructor | src/com/linbit/linstor/drbdstate/StateTracker.java:85-122 | 13 empty observer slots, empty maps and lists. Each kind's slot is its bit position, and the valid mask admits exactly the existing slots. |
| DrbdStateTracker.StateTracker.AdmittedBitsHaveSlots | src/com/linbit/linstor/drbdstate/StateTracker.java:117-117 | Every bit that the valid mask lets through addObserver names an existing slot, so the indexing into observers[] cannot go out of bounds. |
| DrbdStateTracker.StateTracker.GetResource | src/com/linbit/linstor/drbdstate/StateTracker.java:124-140 | A null name is an implementation error. Otherwise the result is the tracked resource of that name, or null. |
| DrbdStateTracker.StateTracker.PutResource | src/com/linbit/linstor/drbdstate/StateTracker.java:142-148 | The resource is tracked under its name, replacing any earlier one, and reads back. |
| DrbdStateTracker.StateTracker.RemoveResource | src/com/linbit/linstor/drbdstate/StateTracker.java:150-166 | A null name is an implementation error. Otherwise the previous entry is returned and the name is no longer tracked. |
| DrbdStateTracker.StateTracker.AddObserver | src/com/linbit/linstor/drbdstate/StateTracker.java:189-208 | The mask is cut to the valid events. An empty result changes nothing. Otherwise the mask is recorded and the observer joins the slot of every bit in it. The other slots are untouched, including slots of an earlier registration. Exact slot membership is preserved for an observer that was not registered. |
| DrbdStateTracker.StateTracker.ScanSlots | src/com/linbit/linstor/drbdstate/StateTracker.java:198-206 | The scan loop visits exactly the one-bits of the mask. It adds or removes the observer in those slots and in no other slot. |
| DrbdStateTracker.StateTracker.RemoveObserver | src/com/linbit/linstor/drbdstate/StateTracker.java:210-227 | The observer leaves the slots of its recorded mask and its record is dropped. An unregistered observer changes nothing. When slot membership matched the recorded masks exactly, it still does, and the observer is in no slot. |
| DrbdStateTracker.StaleSlotAfterReAdd | src/com/linbit/linstor/drbdstate/StateTracker.java:189-227 | As written, re-adding an observer with a smaller mask and then removing it leaves the observer in a slot of its first mask, although it is no longer recorded. |
| DrbdStateTracker.StateTracker.ReplaceObserver | src/com/linbit/linstor/drbdstate/StateTracker.java:189-208 | The corrected addObserver: a non-empty registration first withdraws the earlier one. The observer is then in exactly the slots of its new mask, and exact slot membership is preserved. |
| DrbdStateTracker.NoStaleSlotAfterReplace | src/com/linbit/linstor/drbdstate/StateTracker.java:189-227 | With the corrected registration, the same sequence of calls leaves the observer in no slot and unrecorded. |
| DrbdStateTracker.StateTracker.AddDrbdStateChangeObserver | src/com/linbit/linstor/drbdstate/StateTracker.java:229-232 | The observer is appended to the state-change observers. |
| DrbdStateTracker.StateTracker.Deliver | src/com/linbit/linstor/drbdstate/StateTracker.java:237-368 | A callback reaches the observers of its kind's slot. This includes every observer whose recorded mask has the kind's bit. |
| JavaText.TokensOfJoin | src/com/linbit/linstor/drbdstate/EventsTracker.java:56-67 | Tokenising space-joined tokens gives back the tokens (the StringTokenizer round trip). |
| JavaText.NoTokensIffBlank | src/com/linbit/linstor/drbdstate/EventsTracker.java:59-104 | A line yields no token exactly when it holds only spaces. |
| JavaText.ParseIntOfDigits | src/com/linbit/linstor/drbdstate/EventsTracker.java:396 | parseInt reads back any int written in decimal, with or without a sign. |
| JavaText.ParseIntRejectsNonDigit | src/com/linbit/linstor/drbdstate/EventsTracker.java:396-407 | A non-digit after the first character makes parseInt fail. |
| JavaText.IndexOf | src/com/linbit/linstor/drbdstate/EventsTracker.java:68 | Returns the first position of the character, or -1 exactly when it is absent. |
| DrbdEvents.SplitProp | src/com/linbit/linstor/drbdstate/EventsTracker.java:67-74 | A token with a colon splits at its first colon into a colon-free key and the rest. A token without one is skipped. |
| DrbdEvents.ParseProps | src/com/linbit/linstor/drbdstate/EventsTracker.java:65-75 | The loop builds exactly the property map PropsOf specifies. |
| DrbdEvents.PropsOfKeys | src/com/linbit/linstor/drbdstate/EventsTracker.java:65-75 | A key is in the map exactly when some token carries it. |
| DrbdEvents.PropsOfLastWins | src/com/linbit/linstor/drbdstate/EventsTracker.java:65-75 | A repeated key keeps the value of its last token. |
| DrbdEvents.GetProp | src/com/linbit/linstor/drbdstate/EventsTracker.java:363-382 | Returns the value when the key is present. Otherwise it is a missing-argument error naming the operation and key. |
| DrbdEvents.GetVolumeNr | src/com/linbit/linstor/drbdstate/EventsTracker.java:384-410 | Succeeds exactly when the volume key is present and parses as an int in the volume number range. A missing key and an invalid number give their two distinct errors. |
| DrbdEvents.GetResource | src/com/linbit/linstor/drbdstate/EventsTracker.java:307-317 | The corrected lookup: the tracked resource of the given name, or an error naming the actual operation. |
| DrbdEvents.GetResourceAsWritten | src/com/linbit/linstor/drbdstate/EventsTracker.java:307-317 | As written, the non-existent-resource error always names 'destroy peer-device'. |
| DrbdEvents.GetConnection | src/com/linbit/linstor/drbdstate/EventsTracker.java:319-334 | The corrected lookup: the resource's connection of the given name, or an error naming the actual operation. |
| DrbdEvents.GetConnectionAsWritten | src/com/linbit/linstor/drbdstate/EventsTracker.java:319-334 | As written, the non-existent-connection error always names 'destroy connection'. |
| DrbdEvents.GetVolume | src/com/linbit/linstor/drbdstate/EventsTracker.java:336-361 | The corrected lookup. A resource volume is found through the resource, a peer volume through the connection. A missing one gives the matching non-existent volume or peer-volume error, carrying the volume number's value. |
| DrbdEvents.GetVolumeAsWritten | src/com/linbit/linstor/drbdstate/EventsTracker.java:336-361 | As written, it agrees with the corrected lookup except for a missing volume or peer volume. That case ends in IllegalFormatConversionException from the '%d' conversion of the VolumeNumber object. |
| DrbdEvents.MissingVolumeMisformatted | src/com/linbit/linstor/drbdstate/EventsTracker.java:443-471 | For a change of device 5 of a tracked resource without it, the as-written lookup raises the format conversion error, while the corrected one reports the non-existent volume 5 of r0. |
| DrbdEvents.LookupsMisreportOperation | src/com/linbit/linstor/drbdstate/EventsTracker.java:307-334 | For a change of an unknown resource or connection, the lookups as written report a destroy operation. The corrected ones report the change. |
| DrbdEvents.Dispatch | src/com/linbit/linstor/drbdstate/EventsTracker.java:77-94 | Unknown actions and untracked object types change nothing. Only a tracked object under a known action can fail. Only create/exists of '-' sets the availability latch, and it changes nothing else. Lookups are the corrected ones of Findings, so an unknown object's error names the actual operation and the volume number. |
| DrbdEvents.Interpret | src/com/linbit/linstor/drbdstate/EventsTracker.java:43-106 | A null line is an implementation error and an empty line is skipped. A blank line lacks an action. |
| DrbdEvents.InterpretJoinedLine | src/com/linbit/linstor/drbdstate/EventsTracker.java:43-106 | A line made of an action, an object type and key:value tokens is dispatched with exactly those, and with the properties those tokens give. |
| DrbdEvents.InterpretTokens | src/com/linbit/linstor/drbdstate/EventsTracker.java:56-94 | Any line with at least two tokens is dispatched on its first two tokens and the properties of the rest. |
| DrbdEvents.InterpretActionThen | src/com/linbit/linstor/drbdstate/EventsTracker.java:59-99 | An action token followed by nothing but spaces lacks an object type. Otherwise the line is dispatched on that action. |
| DrbdEvents.ExistsActsAsCreate | src/com/linbit/linstor/drbdstate/EventsTracker.java:80-83 | An 'exists' line has the same effect, and the same errors, as the same line with 'create'. |
| DrbdEvents.MissingNameFails | src/com/linbit/linstor/drbdstate/EventsTracker.java:363-382 | A tracked-object event without a resource name fails with a missing-argument error. |
| DrbdEvents.MissingResourceFails | src/com/linbit/linstor/drbdstate/EventsTracker.java:211-317 | A create of a sub-object, or any change or destroy, naming an unknown resource fails with the non-existent-resource error, which names the actual operation. |
| DrbdEvents.MissingConnectionFails | src/com/linbit/linstor/drbdstate/EventsTracker.java:229-334 | A peer-volume event, or a change or destroy of a connection, naming an unknown connection fails. |
| DrbdEvents.MissingVolumeFails | src/com/linbit/linstor/drbdstate/EventsTracker.java:252-294 | With the corrected lookup, a change or destroy of an unknown volume fails with the non-existent-volume error. |
| DrbdEvents.MissingPeerVolumeFails | src/com/linbit/linstor/drbdstate/EventsTracker.java:259-305 | With the corrected lookup, a change or destroy of an unknown peer volume fails with the non-existent peer-volume error. |
| DrbdEvents.InvalidVolumeFails | src/com/linbit/linstor/drbdstate/EventsTracker.java:384-410 | A volume number that does not parse, or is out of range, fails with the invalid-volume-number error. |
| DrbdEvents.DispatchKeepsWellKeyed | src/com/linbit/linstor/drbdstate/EventsTracker.java:203-305 | Every successful event keeps each resource, connection and volume stored under its own name or number. |
| DrbdEvents.CreateDestroyResource | src/com/linbit/linstor/drbdstate/EventsTracker.java:203-274 | Creating a new resource and destroying it again restores the tree. |
| DrbdEvents.CreateDestroyConnection | src/com/linbit/linstor/drbdstate/EventsTracker.java:211-284 | Creating a new connection and destroying it again restores the tree. |
| DrbdEvents.CreateDestroyVolume | src/com/linbit/linstor/drbdstate/EventsTracker.java:220-294 | Creating a new volume and destroying it again restores the tree. |
| DrbdEvents.ChangeKeepsTree | src/com/linbit/linstor/drbdstate/EventsTracker.java:239-265 | A change event never alters the tree and triggers no callback. |
| DrbdEvents.Notices | src/com/linbit/linstor/drbdstate/EventsTracker.java:137-149 | One availability call per state-change observer, in registration order. |
| DrbdEvents.EventsTracker.ReceiveEvent | src/com/linbit/linstor/drbdstate/EventsTracker.java:43-106 | Handling a line performs exactly the effect Interpret specifies: the tree, the callbacks, the update calls, the latch and its notices. On an error nothing changes. The handlers use the corrected lookups of Findings. |
| DrbdEvents.EventsTracker.Create | src/com/linbit/linstor/drbdstate/EventsTracker.java:108-132 | Performs exactly the create effect for the object type. |
| DrbdEvents.EventsTracker.Change | src/com/linbit/linstor/drbdstate/EventsTracker.java:157-178 | Performs exactly the change effect for the object type. |
| DrbdEvents.EventsTracker.Destroy | src/com/linbit/linstor/drbdstate/EventsTracker.java:180-201 | Performs exactly the destroy effect for the object type. |
| DrbdEvents.EventsTracker.Reinitializing | src/com/linbit/linstor/drbdstate/EventsTracker.java:134-141 | The latch is cleared and every state-change observer is told the state is unavailable. |
| DrbdEvents.EventsTracker.DrbdStateAvailable | src/com/linbit/linstor/drbdstate/EventsTracker.java:143-150 | The latch is set and every state-change observer is told the state is available. |
| DrbdEvents.EventsTracker.CreateResource | src/com/linbit/linstor/drbdstate/EventsTracker.java:203-209 | The resource is put, resourceCreated is delivered, then it is updated. |
| DrbdEvents.EventsTracker.CreateConnection | src/com/linbit/linstor/drbdstate/EventsTracker.java:211-218 | The connection is put under its resource, connectionCreated is delivered, then it is updated. |
| DrbdEvents.EventsTracker.CreateVolume | src/com/linbit/linstor/drbdstate/EventsTracker.java:220-227 | The volume is put under its resource, volumeCreated without a connection is delivered, then it is updated. |
| DrbdEvents.EventsTracker.CreatePeerVolume | src/com/linbit/linstor/drbdstate/EventsTracker.java:229-237 | The volume is put under its connection, volumeCreated with the connection is delivered, then it is updated. |
| DrbdEvents.EventsTracker.ChangeResource | src/com/linbit/linstor/drbdstate/EventsTracker.java:239-243 | The looked-up resource is updated with the properties. |
| DrbdEvents.EventsTracker.ChangeConnection | src/com/linbit/linstor/drbdstate/EventsTracker.java:245-250 | The looked-up connection is updated with the properties. |
| DrbdEvents.EventsTracker.ChangeVolume | src/com/linbit/linstor/drbdstate/EventsTracker.java:252-257 | The looked-up volume is updated with the properties. |
| DrbdEvents.EventsTracker.ChangePeerVolume | src/com/linbit/linstor/drbdstate/EventsTracker.java:259-265 | The looked-up peer volume is updated with the properties. |
| DrbdEvents.EventsTracker.DestroyResource | src/com/linbit/linstor/drbdstate/EventsTracker.java:267-274 | The resource is removed. A name that is not tracked is an error. |
| DrbdEvents.EventsTracker.DestroyConnection | src/com/linbit/linstor/drbdstate/EventsTracker.java:276-284 | The connection is removed from its resource. An unknown name is an error. |
| DrbdEvents.EventsTracker.DestroyVolume | src/com/linbit/linstor/drbdstate/EventsTracker.java:286-294 | The volume is removed from its resource. An unknown number is an error. |
| DrbdEvents.EventsTracker.DestroyPeerVolume | src/com/linbit/linstor/drbdstate/EventsTracker.java:296-305 | The peer volume is removed from its connection. An unknown number is an error. |
| ExtProcOutput.ReadOf | src/com/linbit/extproc/OutputProxy.java:62 | A read delivers at most the free space and never loses or repeats a byte of the stream. EOF means the stream is exhausted. |
| ExtProcOutput.DataEvent | src/com/linbit/extproc/OutputProxy.java:140-152 | A record becomes a stdout event exactly for a proxy of the standard output, and a stderr event otherwise, carrying the record. |
| ExtProcOutput.SplitRecordsJoin | src/com/linbit/extproc/OutputProxy.java:68-97 | The records, each followed by the delimiter, and then the trailing bytes rebuild the stream. |
| ExtProcOutput.SplitRecordsClean | src/com/linbit/extproc/OutputProxy.java:68-97 | No record and no trailing part holds the delimiter. |
| ExtProcOutput.JoinSplitRecords | src/com/linbit/extproc/OutputProxy.java:68-97 | Splitting undoes joining for delimiter-free records. Together with SplitRecordsJoin this is a two-way round trip. |
| ExtProcOutput.MoveToFront | src/com/linbit/extproc/OutputProxy.java:88 | The in-place arraycopy moves the bytes between from and to to the front, leaving the rest of the array as it was. |
| ExtProcOutput.OutputProxy.constructor | src/com/linbit/extproc/OutputProxy.java:35-51 | A 64 KiB buffer, empty, not shut down, with nothing emitted. |
| ExtProcOutput.OutputProxy.ExpectShutdown | src/com/linbit/extproc/OutputProxy.java:159-162 | Sets the shutdown flag. |
| ExtProcOutput.OutputProxy.Run | src/com/linbit/extproc/OutputProxy.java:53-138 | Only appends to the deque and keeps every byte accounted for. On EOF the emitted records are exactly the complete records of the whole stream, and the unterminated tail stays buffered. |
| ExtProcOutput.OutputProxy.Pass | src/com/linbit/extproc/OutputProxy.java:57-137 | One pass of the read loop. It is EOF only when the stream is exhausted. An IOException is reported unless shut down. A full buffer grows by 512 KiB below 4 MiB, and at the cap MaxBufferSizeReached is reported without progress. |
| ExtProcOutput.OutputProxy.Scan | src/com/linbit/extproc/OutputProxy.java:68-97 | Scans the whole buffer and emits only data events, keeping the stream accounted for. |
| ExtProcOutput.OutputProxy.EmitRecord | src/com/linbit/extproc/OutputProxy.java:70-92 | The bytes before the delimiter are emitted as one record. The bytes after it move to the front. |
| ExtProcOutput.OutputProxy.Compact | src/com/linbit/extproc/OutputProxy.java:78-91 | The unscanned bytes move to the start of the buffer and the scan restarts there. |
| ExtProcOutput.OutputProxy.Grow | src/com/linbit/extproc/OutputProxy.java:99-106 | The buffer grows by one increment and keeps its contents. |
| SatelliteUpdate.ReadLinStorMap | controller/src/main/java/com/linbit/linstor/core/apicallhandler/controller/CtrlSatelliteUpdateCaller.java:168-175 | Succeeds exactly when the keys are distinct. The map's keys are exactly the entries' keys, and each maps to its entry's value. |
| SatelliteUpdate.EntryOf | controller/src/main/java/com/linbit/linstor/core/apicallhandler/controller/CtrlSatelliteUpdateCaller.java:146-157 | The entry keeps the frame's return code, cause, correction, details and object references. Its message is the frame's message prefixed with "(node) ". |
| SatelliteUpdate.Deserialized | controller/src/main/java/com/linbit/linstor/core/apicallhandler/controller/CtrlSatelliteUpdateCaller.java:138-166 | Succeeds exactly when every frame's object references have distinct keys. Otherwise it fails on the duplicate key. |
| SatelliteUpdate.DeserializedEntries | controller/src/main/java/com/linbit/linstor/core/apicallhandler/controller/CtrlSatelliteUpdateCaller.java:144-158 | One entry per frame, in order, each built from its frame. |
| SatelliteUpdate.DeserializeApiCallRc | controller/src/main/java/com/linbit/linstor/core/apicallhandler/controller/CtrlSatelliteUpdateCaller.java:138-166 | The loop yields exactly the deserialised entries, or the duplicate-key failure. |
| SatelliteUpdate.EndOf | controller/src/main/java/com/linbit/linstor/core/apicallhandler/controller/CtrlSatelliteUpdateCaller.java:116-132 | PeerNotConnected becomes an ApiRcException carrying the not-connected warning for the node. Normal completion stays complete. |
| SatelliteUpdate.ReplySourceItems | controller/src/main/java/com/linbit/linstor/core/apicallhandler/controller/CtrlSatelliteUpdateCaller.java:116-132 | Each item of a reply stream is the deserialisation of the matching reply from that node. |
| SatelliteUpdate.ReplySourceEnd | controller/src/main/java/com/linbit/linstor/core/apicallhandler/controller/CtrlSatelliteUpdateCaller.java:116-132 | A reply stream stops early only on a duplicate key, as a non-ApiRc error. Otherwise it ends as the call ended. |
| SatelliteUpdate.UpdateResource | controller/src/main/java/com/linbit/linstor/core/apicallhandler/controller/CtrlSatelliteUpdateCaller.java:101-136 | A connected peer whose full sync failed gives exactly one ApiRcException with the full-sync-failed response. Otherwise the source is the peer's replies. |
| SatelliteUpdate.SourceSignals | controller/src/main/java/com/linbit/linstor/core/apicallhandler/controller/CtrlSatelliteUpdateCaller.java:187-193 | A source becomes its items as next-signals tagged with its node. After them comes one captured ApiRcException or one fatal error, unless it completed. |
| SatelliteUpdate.InterleaveKeepsOrder | controller/src/main/java/com/linbit/linstor/core/apicallhandler/controller/CtrlSatelliteUpdateCaller.java:185-194 | The merge keeps each source's signals in that source's order, and loses none of them. |
| SatelliteUpdate.InterleaveCount | controller/src/main/java/com/linbit/linstor/core/apicallhandler/controller/CtrlSatelliteUpdateCaller.java:185-194 | Merged and not-yet-merged signals together number exactly the signals of all sources. |
| SatelliteUpdate.ExhaustiveMembers | controller/src/main/java/com/linbit/linstor/core/apicallhandler/controller/CtrlSatelliteUpdateCaller.java:185-194 | A complete merge holds exactly the signals of the sources. |
| SatelliteUpdate.MergeSignals | controller/src/main/java/com/linbit/linstor/core/apicallhandler/controller/CtrlSatelliteUpdateCaller.java:195-222 | Each signal becomes a (node, ApiCallRc) item, with a captured exception contributing its ApiCallRc. A fatal error stops the stream at that signal. |
| SatelliteUpdate.MergeEnd | controller/src/main/java/com/linbit/linstor/core/apicallhandler/controller/CtrlSatelliteUpdateCaller.java:195-222 | The merged stream errors exactly on a fatal signal. It ends with DelayedApiRcException exactly when some exception was captured and none was fatal, and otherwise completes. |
| SatelliteUpdate.UpdateSatellites | controller/src/main/java/com/linbit/linstor/core/apicallhandler/controller/CtrlSatelliteUpdateCaller.java:76-99 | The loop builds one source per resource and merges them. |
| SatelliteUpdate.MergedEnding | controller/src/main/java/com/linbit/linstor/core/apicallhandler/controller/CtrlSatelliteUpdateCaller.java:177-222 | The update stream fails exactly when some source failed with a non-ApiRc error. It ends with DelayedApiRcException exactly when some source failed with an ApiRcException and none fatally, and completes otherwise. |
| SatelliteUpdate.MergedCount | controller/src/main/java/com/linbit/linstor/core/apicallhandler/controller/CtrlSatelliteUpdateCaller.java:177-222 | Without fatal errors, every response and every converted exception is delivered: the item count is the sum over the sources. |
| SatelliteUpdate.MergedKeepsSourceOrder | controller/src/main/java/com/linbit/linstor/core/apicallhandler/controller/CtrlSatelliteUpdateCaller.java:185-194 | The signals of each satellite reach the merged stream in the order that satellite sent them. |
| SnapshotHandler.CheckResource | src/com/linbit/linstor/core/CtrlSnapshotApiCallHandler.java:397-400 | A resource passes exactly when it is viable. A storage driver without snapshot support or an external meta disk gives snapshots-not-supported for its node. Otherwise a disconnected satellite gives not-connected. |
| SnapshotHandler.EnsureSnapshotsViable | src/com/linbit/linstor/core/CtrlSnapshotApiCallHandler.java:391-473 | Passes exactly when every resource is viable. Otherwise it reports the first resource that is not viable. |
| SnapshotHandler.SnapshotVolumeDfnsOf | src/com/linbit/linstor/core/CtrlSnapshotApiCallHandler.java:150-163 | One snapshot volume definition per volume definition, with its number and size. |
| SnapshotHandler.SnapshotVolumesOf | src/com/linbit/linstor/core/CtrlSnapshotApiCallHandler.java:181-192 | One snapshot volume per snapshot volume definition, on the storage pool of the resource's volume. It fails exactly when the resource lacks one of the volumes. |
| SnapshotHandler.WithDisk | src/com/linbit/linstor/core/CtrlSnapshotApiCallHandler.java:165-170 | Exactly the resources that are not diskless. |
| SnapshotHandler.SnapshotsOfShape | src/com/linbit/linstor/core/CtrlSnapshotApiCallHandler.java:165-194 | There is one snapshot per resource with a disk, in order, each on that resource's node, not deleted, and with its volumes. It succeeds exactly when each such resource has the volumes. |
| SnapshotHandler.SnapshotsFor | src/com/linbit/linstor/core/CtrlSnapshotApiCallHandler.java:165-194 | The loop builds exactly the snapshots SnapshotsOf specifies. |
| SnapshotHandler.SnapshotVolumesFor | src/com/linbit/linstor/core/CtrlSnapshotApiCallHandler.java:181-192 | The inner loop builds exactly the snapshot volumes SnapshotVolumesOf specifies. |
| SnapshotHandler.CreateSnapshotPlan | src/com/linbit/linstor/core/CtrlSnapshotApiCallHandler.java:123-234 | Succeeds exactly under these conditions: the definition exists, the snapshot name is new, every resource is viable, the resources with a disk have the volumes, and there is at least one of them. Each failure gets its own code, in the order the code checks. |
| SnapshotHandler.CreateSnapshotContents | src/com/linbit/linstor/core/CtrlSnapshotApiCallHandler.java:135-203 | The new snapshot definition is marked in progress. It has one volume definition per volume definition and one snapshot per resource with a disk. Nothing else in the resource definition changes. |
| SnapshotHandler.DeleteSnapshotPlan | src/com/linbit/linstor/core/CtrlSnapshotApiCallHandler.java:236-294 | A definition without snapshots is removed. Otherwise it and every snapshot are marked deleted and it is marked in progress. Unknown names fail, and other snapshot definitions are untouched. |
| SnapshotHandler.MarkedDeleted | src/com/linbit/linstor/core/CtrlSnapshotApiCallHandler.java:262-266 | The definition and each of its snapshots are marked deleted. Everything else is kept. |
| SnapshotHandler.SnapshotOn | src/com/linbit/linstor/core/CtrlSnapshotApiCallHandler.java:313 | Finds a snapshot on the node exactly when the definition has one there. |
| SnapshotHandler.SnapshotResponse | src/com/linbit/linstor/core/CtrlSnapshotApiCallHandler.java:296-337 | The peer gets its snapshot exactly when the definition exists, is in progress and has a snapshot on the peer's node. Otherwise it gets the ended message. Both carry the peer's ids. |
| SnapshotHandler.RespondAfterCreate | src/com/linbit/linstor/core/CtrlSnapshotApiCallHandler.java:123-337 | After a successful create, every satellite of a resource with a disk is sent its in-progress snapshot. |
| SnapshotHandler.DeleteAfterCreate | src/com/linbit/linstor/core/CtrlSnapshotApiCallHandler.java:123-294 | Deleting a just-created snapshot marks it deleted for the satellites, and never removes it outright. |
| SnapshotHandler.SnapshotController.CreateSnapshot | src/com/linbit/linstor/core/CtrlSnapshotApiCallHandler.java:123-234 | The call applies CreateSnapshotPlan. On success it commits, updates the satellites and opens the deployment event stream, in that order. On failure it changes nothing. |
| SnapshotHandler.SnapshotController.DeleteSnapshot | src/com/linbit/linstor/core/CtrlSnapshotApiCallHandler.java:236-294 | The call applies DeleteSnapshotPlan and commits. The satellites are updated only when snapshots remain to be removed. |
| SnapshotHandler.SnapshotController.RespondSnapshot | src/com/linbit/linstor/core/CtrlSnapshotApiCallHandler.java:296-357 | Sends exactly SnapshotResponse to the asking peer. |
| SnapshotHandler.SnapshotsOfExtend | src/com/linbit/linstor/core/CtrlSnapshotApiCallHandler.java:165-194 | The first missing volume decides the failure, whatever resources follow. |

## Left out

- A Java `long` used as a bit mask is modelled as the set of its one-bit positions, in `LongBits` and `StateFlags`. AND, OR and NOT become intersection, union and complement. No arithmetic on the 64-bit value is modelled.
- `DrbdResource`, `DrbdConnection` and `DrbdVolume` (`newFromProps`, `update`, `put*`, `remove*`) are not part of this model.
  - Their constructors from properties are assumed to read the name, connection name and volume number the same way `getProp`/`getVolumeNr` do.
  - `update(props)` is recorded as a call with its properties. The attribute parsing and the change callbacks it triggers are left out.
  - The DRBD tree is held as values in a map, so aliasing between tracked objects is not modelled.
- ExtProcOutput.OutputProxy.Run: the source's loop is unbounded. The model makes at most a given number of passes, and the EOF guarantee holds when EOF is reached within them.
- The blocking deque of `OutputProxy` is the sequence of events put into it. Blocking, `InterruptedException`, the printing of stack traces and concurrency with `expectShutdown` are left out.
- The input stream of `OutputProxy` is a scripted sequence of read outcomes (bytes, EOF, IOException).
- VolumeNumber.java is not part of this model. Its range check is assumed to accept [0, 65535].
- `Integer.parseInt` is modelled for ASCII decimal digits with an optional sign. Other Unicode digits are left out.
- DrbdStateTracker.LowBitsMask: stated for counts up to 30. The constructor only uses 13, so the Java `int` shift overflow does not arise.
- `ResObsMux` is modelled as one delivery per callback: the kind, the subject and the set of observers of its slot. The order in which the observers of one slot are called is not modelled.
- `StateTracker.main` and `debugOutput` (diagnostic printing) are left out, as is every `toString`.
- SatelliteUpdate.MergeExtractingApiRcExceptions: Reactor's asynchronous `Flux.merge` is modelled over an explicit interleaving, a sequence of source indices. Backpressure, cancellation and timing are left out.
- `ResponseUtils` is not part of this model. The full-sync-failed and not-connected responses are symbolic constructors carrying the node name.
- `IOException` while deserialising a reply and protobuf framing are left out. A reply is a sequence of already-parsed frames.
- `AccessDeniedException` paths that the source turns into `ImplementationError` (iterating resources with the API context) are left out. Those calls are assumed to succeed.
- Name validation of resource and snapshot names (`InvalidNameException`) is left out: names are plain strings.
- `ApiConsts` numeric return codes are modelled as symbolic error constructors.
- The transaction's rollback on failure is modelled as "nothing changes". `commit` is recorded in the effects log.
- `loadRscDfn` is modelled as a map lookup that fails with "not found". `loadSnapshotDfn` is modelled the same way. Their access-denied paths are left out.
- `snapshotDfn.delete` is modelled as removing the definition from its resource definition.
- Resources, volume definitions and volumes are iterated in sequence order. The source iterates sorted maps, so the model's order stands for the map's order.
- `listSnapshotDefinitions` (building the API list for a client) is left out. It only serialises data and proves nothing about the core's state.
- The peer's `fullSyncId` and `updateId` in `respondSnapshot` are parameters. The serialiser and message sending are recorded as a `Sent` step.
- SatelliteUpdate.ReadLinStorMap: `Collectors.toMap` without a merge function throws on a repeated key. The model fails on a duplicate key.
- SQL exceptions from the persistence driver in `StateFlagsBits.setFlags` and `NodeConnection.delete` are left out.
- Access control inside `ObjectProtection.requireAccess` is reduced to an access-control list from roles to the strongest granted access type.
- DrbdEvents.Dispatch and the DrbdEvents.EventsTracker class (ReceiveEvent, Create, Change, Destroy and the twelve handlers) use the corrected lookups DrbdEvents.GetResource, DrbdEvents.GetConnection and DrbdEvents.GetVolume. Their errors for an unknown resource or connection name the actual operation, and an unknown volume gives the non-existent-volume error. The as-written behaviour is modelled only by the members named under Findings.
- NodeConnections.Get: Node.java is not part of this model. The access check of Node.getNodeConnection is assumed to be VIEW on the source node's protection, and any further checks inside Node.getNodeConnection are left out.

## Findings

| source | as written | input that shows it | evidently intended | confidence | as-written member | corrected member |
|---|---|---|---|---|---|---|
| server/src/main/java/com/linbit/linstor/core/objects/NodeConnection.java:179-184 | compareTo joins the other connection's source name with this connection's own target name | connections (a, c) and (ab, ac): each compares greater than the other | each side joins its own source and target, giving an antisymmetric order | high; not executed | NodeConnections.CompareAsWrittenNotAntisymmetric | NodeConnections.CompareKeysAntisymmetric |
| src/com/linbit/linstor/drbdstate/EventsTracker.java:307-334 | getResource and getConnection report "destroy peer-device" / "destroy connection" whatever the operation | "change resource name:r0" with no resource r0 tracked | the error names the operation being handled ("change resource") | high; not executed | DrbdEvents.LookupsMisreportOperation | DrbdEvents.GetResource |
| src/com/linbit/linstor/drbdstate/EventsTracker.java:443-471 | nonExistentVolume formats the VolumeNumber object with '%d'; VolumeNumber keeps its number in the field `value` (as its uses in VolumeNumberAlloc.java:33 and CtrlSnapshotApiCallHandler.java:445 show) and is no java.lang.Number, so String.format throws IllegalFormatConversionException | "change device name:r0 volume:5" with r0 tracked and no volume 5 | the message formats `volNr.value` and the EventsSourceException reaches the caller | medium (VolumeNumber.java is not part of this model); not executed | DrbdEvents.MissingVolumeMisformatted | DrbdEvents.GetVolume |
| src/com/linbit/linstor/drbdstate/StateTracker.java:189-227 | addObserver records the new mask and joins its slots without leaving the slots of an earlier registration, so removeObserver later leaves only the new mask's slots | addObserver(o, ROLE + DISK), addObserver(o, DISK), removeObserver(o): o stays in the ROLE slot | a re-registration withdraws the earlier one first | medium; not executed | DrbdStateTracker.StaleSlotAfterReAdd | DrbdStateTracker.StateTracker.ReplaceObserver |
