/** Transactional 64-bit state flags of core objects (StateFlagsBits).

    Flag words are `LongBits.Bits` values. Each flag is identified by its flag value. An object keeps the committed
    flags, the pending ("changed") flags that readers see, and the fixed mask
    of valid flags. Mutators need CHANGE access, readers VIEW access. */
module StateFlags {
  import opened Wrappers
  import opened Access
  import opened LongBits

  /** All bits of flag value f are set in v (v & f == f). */
  predicate Contains(v: Bits, f: Bits) { f <= v }

  /** No bit of flag value f is set in v (v & f == 0). */
  predicate Misses(v: Bits, f: Bits) { v * f == {} }

  /** Every flag of the list is contained in v. */
  predicate AllContained(v: Bits, flags: seq<Bits>) {
    forall i :: 0 <= i < |flags| ==> Contains(v, flags[i])
  }

  /** No flag of the list shares a bit with v. */
  predicate AllMissed(v: Bits, flags: seq<Bits>) {
    forall i :: 0 <= i < |flags| ==> Misses(v, flags[i])
  }

  /** OR of the values of the given flags (getMask on a non-null array). */
  function MaskOf(flags: seq<Bits>): Bits {
    if flags == [] then {} else MaskOf(flags[..|flags| - 1]) + flags[|flags| - 1]
  }

  lemma AllContainedSnoc(v: Bits, flags: seq<Bits>)
    requires flags != []
    ensures AllContained(v, flags) <==> AllContained(v, flags[..|flags| - 1]) && Contains(v, flags[|flags| - 1])
  {
    var init := flags[..|flags| - 1];
    assert forall i :: 0 <= i < |init| ==> init[i] == flags[i];
  }

  lemma AllMissedSnoc(v: Bits, flags: seq<Bits>)
    requires flags != []
    ensures AllMissed(v, flags) <==> AllMissed(v, flags[..|flags| - 1]) && Misses(v, flags[|flags| - 1])
  {
    var init := flags[..|flags| - 1];
    assert forall i :: 0 <= i < |init| ==> init[i] == flags[i];
  }

  /** A value holds every bit of the mask iff it holds every flag: the mask
      covers each flag and is the least value that does. */
  lemma {:induction false} AllSetIffEachSet(v: Bits, flags: seq<Bits>)
    ensures Contains(v, MaskOf(flags)) <==> AllContained(v, flags)
  {
    if flags != [] {
      AllSetIffEachSet(v, flags[..|flags| - 1]);
      AllContainedSnoc(v, flags);
    }
  }

  /** A value shares no bit with the mask iff it shares no bit with any flag. */
  lemma {:induction false} NoneSetIffEachUnset(v: Bits, flags: seq<Bits>)
    ensures Misses(v, MaskOf(flags)) <==> AllMissed(v, flags)
  {
    if flags != [] {
      NoneSetIffEachUnset(v, flags[..|flags| - 1]);
      AllMissedSnoc(v, flags);
    }
  }

  /** Every flag's bits are contained in the mask. */
  lemma MaskOfCovers(flags: seq<Bits>)
    ensures AllContained(MaskOf(flags), flags)
  {
    AllSetIffEachSet(MaskOf(flags), flags);
  }

  /** The mask holds no bit that is not in some flag. */
  lemma {:induction false} MaskOfExact(flags: seq<Bits>, b: Bit)
    requires b in MaskOf(flags)
    ensures exists i :: 0 <= i < |flags| && b in flags[i]
  {
    if b !in flags[|flags| - 1] {
      MaskOfExact(flags[..|flags| - 1], b);
      var i :| 0 <= i < |flags| - 1 && b in flags[..|flags| - 1][i];
      assert b in flags[i];
    }
  }

  /** getMask: the OR of the flag values; a null array gives 0. */
  method GetMask(flags: Option<seq<Bits>>) returns (bitMask: Bits)
    ensures flags.None? ==> bitMask == {}
    ensures flags.Some? ==> bitMask == MaskOf(flags.value)
  {
    bitMask := {};
    if flags.Some? {
      var fs := flags.value;
      var k := 0;
      while k < |fs|
        invariant 0 <= k <= |fs|
        invariant bitMask == MaskOf(fs[..k])
      {
        assert fs[..k + 1][..k] == fs[..k];
        bitMask := bitMask + fs[k];
        k := k + 1;
      }
      assert fs[..k] == fs;
    }
  }

  /** The flags restoreFlags selects for a stored mask: those whose bits are
      all contained in it. */
  function Restored(values: seq<Bits>, m: Bits): (s: set<Bits>)
    ensures forall f :: f in s <==> f in values && Contains(m, f)
  {
    set f | f in values && Contains(m, f)
  }

  /** restoreFlags: rebuild the set of flags from a stored 64-bit mask. */
  method RestoreFlags(values: seq<Bits>, m: Bits) returns (restored: set<Bits>)
    ensures restored == Restored(values, m)
  {
    restored := {};
    var k := 0;
    while k < |values|
      invariant 0 <= k <= |values|
      invariant restored == Restored(values[..k], m)
    {
      if Contains(m, values[k]) {
        restored := restored + {values[k]};
      }
      assert values[..k + 1] == values[..k] + [values[k]];
      k := k + 1;
    }
    assert values[..k] == values;
  }

  /** Storing the mask of some flags and restoring it gives back at least
      those flags. */
  lemma RestoreAfterMask(values: seq<Bits>, chosen: seq<Bits>)
    requires forall i :: 0 <= i < |chosen| ==> chosen[i] in values
    ensures forall i :: 0 <= i < |chosen| ==> chosen[i] in Restored(values, MaskOf(chosen))
  {
    MaskOfCovers(chosen);
  }

  // New pending values computed by the mutators from the current pending
  // value, the valid-flags mask and the mask of the argument flags.
  function EnableAllValue(pending: Bits, valid: Bits): Bits { pending + valid }
  function EnableValue(pending: Bits, valid: Bits, bits: Bits): Bits { (pending + bits) * valid }
  function DisableValue(pending: Bits, bits: Bits): Bits { pending * Not(bits) }
  function EnableExceptValue(pending: Bits, valid: Bits, bits: Bits): Bits { pending + (valid * Not(bits)) }
  function DisableExceptValue(pending: Bits, bits: Bits): Bits { pending * bits }

  /** Enabling valid flags sets each of them, leaves no bit outside the valid
      mask, and keeps every valid pending bit. */
  lemma EnableSetsFlags(pending: Bits, valid: Bits, flags: seq<Bits>)
    requires AllContained(valid, flags)
    ensures AllContained(EnableValue(pending, valid, MaskOf(flags)), flags)
    ensures Misses(EnableValue(pending, valid, MaskOf(flags)), Not(valid))
    ensures Contains(EnableValue(pending, valid, MaskOf(flags)), pending * valid)
  {
    MaskOfCovers(flags);
  }

  /** Disabling flags clears each of them and keeps every bit outside them. */
  lemma DisableClearsFlags(pending: Bits, flags: seq<Bits>, other: Bits)
    requires AllMissed(other, flags)
    ensures AllMissed(DisableValue(pending, MaskOf(flags)), flags)
    ensures DisableValue(pending, MaskOf(flags)) * other == pending * other
  {
    MaskOfCovers(flags);
    NoneSetIffEachUnset(other, flags);
    var m := MaskOf(flags);
    forall b | b in other ensures b !in m {
      assert b !in other * m;
    }
  }

  /** enableFlagsExcept sets every valid bit outside the given flags and keeps
      the pending ones; disableFlagsExcept clears every bit outside them and
      keeps their pending bits. */
  lemma ExceptVariants(pending: Bits, valid: Bits, flags: seq<Bits>)
    ensures Contains(EnableExceptValue(pending, valid, MaskOf(flags)), valid * Not(MaskOf(flags)))
    ensures Contains(EnableExceptValue(pending, valid, MaskOf(flags)), pending)
    ensures Misses(DisableExceptValue(pending, MaskOf(flags)), Not(MaskOf(flags)))
    ensures forall i :: 0 <= i < |flags| ==> DisableExceptValue(pending, MaskOf(flags)) * flags[i] == pending * flags[i]
  {
    MaskOfCovers(flags);
  }

  class StateFlagsBits {
    const objProt: ObjectProtection
    /** Mask of the valid flags. */
    const mask: Bits
    /** Whether a persistence driver is attached (persistence != null). */
    const hasPersistence: bool
    /** Committed flags. */
    var stateFlags: Bits
    /** Pending flags; every reader sees these. */
    var changedStateFlags: Bits
    /** Whether a transaction manager is attached (transMgr != null). */
    var hasTransMgr: bool
    var initialized: bool
    /** The values handed to the persistence driver, in call order. */
    var persisted: seq<Bits>

    /** Before initialized() every mutation commits at once, so the object
        cannot be dirty. */
    ghost predicate Valid()
      reads this
    {
      !initialized ==> stateFlags == changedStateFlags
    }

    constructor (prot: ObjectProtection, validFlagsMask: Bits, withPersistence: bool, initialFlags: Bits)
      ensures Valid()
      ensures objProt == prot && mask == validFlagsMask && hasPersistence == withPersistence
      ensures stateFlags == initialFlags && changedStateFlags == initialFlags
      ensures !hasTransMgr && !initialized && persisted == []
    {
      objProt := prot;
      mask := validFlagsMask;
      hasPersistence := withPersistence;
      stateFlags := initialFlags;
      changedStateFlags := initialFlags;
      hasTransMgr := false;
      initialized := false;
      persisted := [];
    }

    /** setFlags: store the new pending value; before initialization commit it
        at once, afterwards persist it when both a persistence driver and a
        transaction manager are attached. */
    method SetFlags(bits: Bits)
      requires Valid()
      modifies this`changedStateFlags, this`stateFlags, this`persisted
      ensures Valid()
      ensures changedStateFlags == bits
      ensures stateFlags == if initialized then old(stateFlags) else bits
      ensures persisted == if initialized && hasPersistence && hasTransMgr then old(persisted) + [bits] else old(persisted)
    {
      changedStateFlags := bits;
      if initialized {
        if hasPersistence && hasTransMgr {
          persisted := persisted + [bits];
        }
      } else {
        Commit();
      }
    }

    method EnableAllFlags(ctx: AccessContext) returns (r: Outcome<AccessError>)
      requires Valid()
      modifies this`changedStateFlags, this`stateFlags, this`persisted
      ensures Valid()
      ensures r.Pass? <==> Permits(objProt, ctx, CHANGE)
      ensures r.Fail? ==> unchanged(this)
      ensures r.Pass? ==> changedStateFlags == EnableAllValue(old(changedStateFlags), mask)
      ensures r.Pass? ==> stateFlags == if initialized then old(stateFlags) else changedStateFlags
      ensures r.Pass? ==> persisted == if initialized && hasPersistence && hasTransMgr then old(persisted) + [changedStateFlags] else old(persisted)
    {
      if !Permits(objProt, ctx, CHANGE) {
        return Fail(AccessDenied);
      }
      SetFlags(changedStateFlags + mask);
      r := Pass;
    }

    method DisableAllFlags(ctx: AccessContext) returns (r: Outcome<AccessError>)
      requires Valid()
      modifies this`changedStateFlags, this`stateFlags, this`persisted
      ensures Valid()
      ensures r.Pass? <==> Permits(objProt, ctx, CHANGE)
      ensures r.Fail? ==> unchanged(this)
      ensures r.Pass? ==> changedStateFlags == {}
      ensures r.Pass? ==> stateFlags == if initialized then old(stateFlags) else {}
      ensures r.Pass? ==> persisted == if initialized && hasPersistence && hasTransMgr then old(persisted) + [{}] else old(persisted)
    {
      if !Permits(objProt, ctx, CHANGE) {
        return Fail(AccessDenied);
      }
      SetFlags({});
      r := Pass;
    }

    method EnableFlags(ctx: AccessContext, flags: seq<Bits>) returns (r: Outcome<AccessError>)
      requires Valid()
      modifies this`changedStateFlags, this`stateFlags, this`persisted
      ensures Valid()
      ensures r.Pass? <==> Permits(objProt, ctx, CHANGE)
      ensures r.Fail? ==> unchanged(this)
      ensures r.Pass? ==> changedStateFlags == EnableValue(old(changedStateFlags), mask, MaskOf(flags))
      ensures r.Pass? ==> Misses(changedStateFlags, Not(mask))
      ensures r.Pass? ==> stateFlags == if initialized then old(stateFlags) else changedStateFlags
      ensures r.Pass? ==> persisted == if initialized && hasPersistence && hasTransMgr then old(persisted) + [changedStateFlags] else old(persisted)
    {
      if !Permits(objProt, ctx, CHANGE) {
        return Fail(AccessDenied);
      }
      var flagsBits := GetMask(Some(flags));
      SetFlags((changedStateFlags + flagsBits) * mask);
      r := Pass;
    }

    method DisableFlags(ctx: AccessContext, flags: seq<Bits>) returns (r: Outcome<AccessError>)
      requires Valid()
      modifies this`changedStateFlags, this`stateFlags, this`persisted
      ensures Valid()
      ensures r.Pass? <==> Permits(objProt, ctx, CHANGE)
      ensures r.Fail? ==> unchanged(this)
      ensures r.Pass? ==> changedStateFlags == DisableValue(old(changedStateFlags), MaskOf(flags))
      ensures r.Pass? ==> stateFlags == if initialized then old(stateFlags) else changedStateFlags
      ensures r.Pass? ==> persisted == if initialized && hasPersistence && hasTransMgr then old(persisted) + [changedStateFlags] else old(persisted)
    {
      if !Permits(objProt, ctx, CHANGE) {
        return Fail(AccessDenied);
      }
      var flagsBits := GetMask(Some(flags));
      SetFlags(changedStateFlags * Not(flagsBits));
      r := Pass;
    }

    method EnableFlagsExcept(ctx: AccessContext, flags: seq<Bits>) returns (r: Outcome<AccessError>)
      requires Valid()
      modifies this`changedStateFlags, this`stateFlags, this`persisted
      ensures Valid()
      ensures r.Pass? <==> Permits(objProt, ctx, CHANGE)
      ensures r.Fail? ==> unchanged(this)
      ensures r.Pass? ==> changedStateFlags == EnableExceptValue(old(changedStateFlags), mask, MaskOf(flags))
      ensures r.Pass? ==> stateFlags == if initialized then old(stateFlags) else changedStateFlags
      ensures r.Pass? ==> persisted == if initialized && hasPersistence && hasTransMgr then old(persisted) + [changedStateFlags] else old(persisted)
    {
      if !Permits(objProt, ctx, CHANGE) {
        return Fail(AccessDenied);
      }
      var flagsBits := GetMask(Some(flags));
      SetFlags(changedStateFlags + (mask * Not(flagsBits)));
      r := Pass;
    }

    method DisableFlagsExcept(ctx: AccessContext, flags: seq<Bits>) returns (r: Outcome<AccessError>)
      requires Valid()
      modifies this`changedStateFlags, this`stateFlags, this`persisted
      ensures Valid()
      ensures r.Pass? <==> Permits(objProt, ctx, CHANGE)
      ensures r.Fail? ==> unchanged(this)
      ensures r.Pass? ==> changedStateFlags == DisableExceptValue(old(changedStateFlags), MaskOf(flags))
      ensures r.Pass? ==> stateFlags == if initialized then old(stateFlags) else changedStateFlags
      ensures r.Pass? ==> persisted == if initialized && hasPersistence && hasTransMgr then old(persisted) + [changedStateFlags] else old(persisted)
    {
      if !Permits(objProt, ctx, CHANGE) {
        return Fail(AccessDenied);
      }
      var flagsBits := GetMask(Some(flags));
      SetFlags(changedStateFlags * flagsBits);
      r := Pass;
    }

    /** isSet: every given flag is set in the pending flags. */
    function IsSet(ctx: AccessContext, flags: seq<Bits>): (r: Result<bool, AccessError>)
      reads this
      ensures r.Success? <==> Permits(objProt, ctx, VIEW)
      ensures r.Success? ==> (r.value <==> AllContained(changedStateFlags, flags))
    {
      AllSetIffEachSet(changedStateFlags, flags);
      if !Permits(objProt, ctx, VIEW) then Failure(AccessDenied)
      else Success(Contains(changedStateFlags, MaskOf(flags)))
    }

    /** isUnset: no given flag shares a bit with the pending flags. */
    function IsUnset(ctx: AccessContext, flags: seq<Bits>): (r: Result<bool, AccessError>)
      reads this
      ensures r.Success? <==> Permits(objProt, ctx, VIEW)
      ensures r.Success? ==> (r.value <==> AllMissed(changedStateFlags, flags))
    {
      NoneSetIffEachUnset(changedStateFlags, flags);
      if !Permits(objProt, ctx, VIEW) then Failure(AccessDenied)
      else Success(Misses(changedStateFlags, MaskOf(flags)))
    }

    /** isSomeSet is the negation of isUnset. */
    function IsSomeSet(ctx: AccessContext, flags: seq<Bits>): (r: Result<bool, AccessError>)
      reads this
      ensures r.Success? <==> Permits(objProt, ctx, VIEW)
      ensures r.Success? ==> (r.value <==> !AllMissed(changedStateFlags, flags))
      ensures r.Success? ==> r.value == !IsUnset(ctx, flags).value
    {
      NoneSetIffEachUnset(changedStateFlags, flags);
      if !Permits(objProt, ctx, VIEW) then Failure(AccessDenied)
      else Success(!Misses(changedStateFlags, MaskOf(flags)))
    }

    /** isSomeUnset is the negation of isSet. */
    function IsSomeUnset(ctx: AccessContext, flags: seq<Bits>): (r: Result<bool, AccessError>)
      reads this
      ensures r.Success? <==> Permits(objProt, ctx, VIEW)
      ensures r.Success? ==> (r.value <==> !AllContained(changedStateFlags, flags))
      ensures r.Success? ==> r.value == !IsSet(ctx, flags).value
    {
      AllSetIffEachSet(changedStateFlags, flags);
      if !Permits(objProt, ctx, VIEW) then Failure(AccessDenied)
      else Success(!Contains(changedStateFlags, MaskOf(flags)))
    }

    function GetFlagsBits(ctx: AccessContext): (r: Result<Bits, AccessError>)
      reads this
      ensures r.Success? <==> Permits(objProt, ctx, VIEW)
      ensures r.Success? ==> r.value == changedStateFlags
    {
      if !Permits(objProt, ctx, VIEW) then Failure(AccessDenied) else Success(changedStateFlags)
    }

    function GetValidFlagsBits(ctx: AccessContext): (r: Result<Bits, AccessError>)
      reads this
      ensures r.Success? <==> Permits(objProt, ctx, VIEW)
      ensures r.Success? ==> r.value == mask
    {
      if !Permits(objProt, ctx, VIEW) then Failure(AccessDenied) else Success(mask)
    }

    method Initialized()
      requires Valid()
      modifies this`initialized
      ensures Valid() && initialized
    {
      initialized := true;
    }

    method SetConnection(attach: bool)
      requires Valid()
      modifies this`hasTransMgr
      ensures Valid() && hasTransMgr == attach
    {
      hasTransMgr := attach;
    }

    method Commit()
      modifies this`stateFlags
      ensures stateFlags == changedStateFlags
      ensures !IsDirty()
      ensures Valid()
    {
      stateFlags := changedStateFlags;
    }

    method Rollback()
      modifies this`changedStateFlags
      ensures changedStateFlags == stateFlags == old(stateFlags)
      ensures !IsDirty()
      ensures Valid()
    {
      changedStateFlags := stateFlags;
    }

    /** The object is dirty iff pending and committed flags differ. */
    predicate IsDirty()
      reads this
    {
      changedStateFlags != stateFlags
    }
  }

}
