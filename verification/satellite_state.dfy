/** The controller's view of one satellite's reported state (SatelliteState):
    a map from resource name to resource state, where entries are created on
    demand by the setters and pruned once the unsetters leave them empty.

    A getter or setter passed by the caller is modelled by the name of the
    state field it reads or writes; writing null removes the field. The
    resource state keeps its fields and a map from volume number to volume
    state, and treats its volumes the way SatelliteState treats resources
    (SatelliteResourceState.java and SatelliteVolumeState.java are not part
    of this model). */
module SatelliteStates {
  import opened Wrappers

  type ResourceName = string
  type FieldName = string

  datatype VolumeState<V> = VolumeState(fields: map<FieldName, V>) {
    predicate IsEmpty() { fields == map[] }
  }

  datatype ResourceState<V> = ResourceState(fields: map<FieldName, V>, volumeStates: map<int, VolumeState<V>>) {
    predicate IsEmpty() { fields == map[] && volumeStates == map[] }
  }

  function EmptyResource<V>(): ResourceState<V> { ResourceState(map[], map[]) }

  /** A setter applied to a field map; a null value clears the field. */
  function SetField<V>(fields: map<FieldName, V>, field: FieldName, value: Option<V>): (r: map<FieldName, V>)
    ensures field in r <==> value.Some?
    ensures value.Some? ==> r[field] == value.value
    ensures forall f :: f != field ==> (f in r <==> f in fields) && (f in r ==> r[f] == fields[f])
  {
    match value
    case Some(v) => fields[field := v]
    case None => fields - {field}
  }

  /** A getter applied to a field map; an unset field reads as null. */
  function GetField<V>(fields: map<FieldName, V>, field: FieldName): (r: Option<V>)
    ensures r.Some? <==> field in fields
    ensures r.Some? ==> r.value == fields[field]
  {
    if field in fields then Some(fields[field]) else None
  }

  /** The resource state's getFromVolume: null for an absent volume. */
  function ResourceGetFromVolume<V>(rs: ResourceState<V>, volNr: int, field: FieldName): (r: Option<V>)
    ensures volNr !in rs.volumeStates ==> r.None?
    ensures volNr in rs.volumeStates ==> r == GetField(rs.volumeStates[volNr].fields, field)
  {
    if volNr in rs.volumeStates then GetField(rs.volumeStates[volNr].fields, field) else None
  }

  /** The resource state's setOnVolume: creates the volume state on demand. */
  function ResourceSetOnVolume<V>(rs: ResourceState<V>, volNr: int, field: FieldName, value: Option<V>): (r: ResourceState<V>)
    ensures r.fields == rs.fields
    ensures r.volumeStates.Keys == rs.volumeStates.Keys + {volNr}
    ensures ResourceGetFromVolume(r, volNr, field) == value
    ensures r.volumeStates[volNr].fields ==
      SetField(if volNr in rs.volumeStates then rs.volumeStates[volNr].fields else map[], field, value)
    ensures forall n :: n in rs.volumeStates && n != volNr ==> r.volumeStates[n] == rs.volumeStates[n]
  {
    var vs := if volNr in rs.volumeStates then rs.volumeStates[volNr] else VolumeState(map[]);
    rs.(volumeStates := rs.volumeStates[volNr := VolumeState(SetField(vs.fields, field, value))])
  }

  /** The resource state's unsetOnVolume: no-op for an absent volume, else
      clears the field and drops the volume state once it is empty. */
  function ResourceUnsetOnVolume<V>(rs: ResourceState<V>, volNr: int, field: FieldName): (r: ResourceState<V>)
    ensures r.fields == rs.fields
    ensures ResourceGetFromVolume(r, volNr, field).None?
    ensures volNr in r.volumeStates ==> !r.volumeStates[volNr].IsEmpty()
    ensures volNr in r.volumeStates <==> volNr in rs.volumeStates && rs.volumeStates[volNr].fields - {field} != map[]
    ensures volNr in r.volumeStates ==> r.volumeStates[volNr].fields == rs.volumeStates[volNr].fields - {field}
    ensures r.volumeStates.Keys <= rs.volumeStates.Keys
    ensures forall n :: n in rs.volumeStates && n != volNr ==> n in r.volumeStates && r.volumeStates[n] == rs.volumeStates[n]
  {
    if volNr !in rs.volumeStates then rs
    else
      var vs := VolumeState(SetField(rs.volumeStates[volNr].fields, field, None));
      if vs.IsEmpty() then rs.(volumeStates := rs.volumeStates - {volNr})
      else rs.(volumeStates := rs.volumeStates[volNr := vs])
  }

  class SatelliteState<V> {
    var resourceStates: map<ResourceName, ResourceState<V>>

    constructor ()
      ensures resourceStates == map[]
    {
      resourceStates := map[];
    }

    /** Copy constructor: the same resources, each with a copy of its state. */
    constructor Copy(other: SatelliteState<V>)
      ensures resourceStates == other.resourceStates
    {
      var copied: map<ResourceName, ResourceState<V>> := map[];
      var pending := other.resourceStates.Keys;
      while pending != {}
        invariant pending <= other.resourceStates.Keys
        invariant copied.Keys == other.resourceStates.Keys - pending
        invariant forall k :: k in copied ==> copied[k] == other.resourceStates[k]
        decreases pending
      {
        var k :| k in pending;
        copied := copied[k := other.resourceStates[k]];
        pending := pending - {k};
      }
      resourceStates := copied;
    }

    /** getFromResource: null for an absent resource, else the getter's value. */
    function GetFromResource(name: ResourceName, field: FieldName): (r: Option<V>)
      reads this
      ensures name !in resourceStates ==> r.None?
      ensures name in resourceStates ==> r == GetField(resourceStates[name].fields, field)
    {
      if name in resourceStates then GetField(resourceStates[name].fields, field) else None
    }

    /** Every resource other than the named one keeps its entry. */
    twostate predicate OthersUnchanged(name: ResourceName)
      reads this
    {
      forall k :: k != name ==>
        (k in resourceStates <==> k in old(resourceStates)) &&
        (k in resourceStates ==> resourceStates[k] == old(resourceStates)[k])
    }

    /** setOnResource: the entry is created if absent, then the setter runs. */
    method SetOnResource(name: ResourceName, field: FieldName, value: Option<V>)
      modifies this
      ensures name in resourceStates
      ensures GetFromResource(name, field) == value
      ensures resourceStates[name].fields ==
        SetField(if name in old(resourceStates) then old(resourceStates)[name].fields else map[], field, value)
      ensures resourceStates[name].volumeStates == (if name in old(resourceStates) then old(resourceStates)[name].volumeStates else map[])
      ensures OthersUnchanged(name)
    {
      var rs := if name in resourceStates then resourceStates[name] else EmptyResource();
      resourceStates := resourceStates[name := rs.(fields := SetField(rs.fields, field, value))];
    }

    /** unsetOnResource: nothing for an absent resource; otherwise the field is
        cleared and the entry removed once it is empty. */
    method UnsetOnResource(name: ResourceName, field: FieldName)
      modifies this
      ensures name !in old(resourceStates) ==> resourceStates == old(resourceStates)
      ensures GetFromResource(name, field).None?
      ensures name in resourceStates ==> !resourceStates[name].IsEmpty()
      ensures name in resourceStates <==>
        name in old(resourceStates) &&
        !old(resourceStates)[name].(fields := old(resourceStates)[name].fields - {field}).IsEmpty()
      ensures name in resourceStates ==> resourceStates[name].fields == old(resourceStates)[name].fields - {field}
      ensures name in resourceStates ==> resourceStates[name].volumeStates == old(resourceStates)[name].volumeStates
      ensures OthersUnchanged(name)
    {
      if name in resourceStates {
        var rs := resourceStates[name];
        rs := rs.(fields := SetField(rs.fields, field, None));
        if rs.IsEmpty() {
          resourceStates := resourceStates - {name};
        } else {
          resourceStates := resourceStates[name := rs];
        }
      }
    }

    /** getFromVolume: null when the resource is absent, else the resource
        state's answer. */
    function GetFromVolume(name: ResourceName, volNr: int, field: FieldName): (r: Option<V>)
      reads this
      ensures name !in resourceStates ==> r.None?
      ensures name in resourceStates ==> r == ResourceGetFromVolume(resourceStates[name], volNr, field)
    {
      if name in resourceStates then ResourceGetFromVolume(resourceStates[name], volNr, field) else None
    }

    /** setOnVolume: the resource entry is created on demand. */
    method SetOnVolume(name: ResourceName, volNr: int, field: FieldName, value: Option<V>)
      modifies this
      ensures name in resourceStates
      ensures GetFromVolume(name, volNr, field) == value
      ensures resourceStates[name].fields == (if name in old(resourceStates) then old(resourceStates)[name].fields else map[])
      ensures resourceStates[name] ==
        ResourceSetOnVolume(if name in old(resourceStates) then old(resourceStates)[name] else EmptyResource(), volNr, field, value)
      ensures OthersUnchanged(name)
    {
      var rs := if name in resourceStates then resourceStates[name] else EmptyResource();
      resourceStates := resourceStates[name := ResourceSetOnVolume(rs, volNr, field, value)];
    }

    /** unsetOnVolume: the resource entry is pruned once it becomes empty. */
    method UnsetOnVolume(name: ResourceName, volNr: int, field: FieldName)
      modifies this
      ensures name !in old(resourceStates) ==> resourceStates == old(resourceStates)
      ensures GetFromVolume(name, volNr, field).None?
      ensures name in resourceStates ==> !resourceStates[name].IsEmpty()
      ensures name in resourceStates <==>
        name in old(resourceStates) && !ResourceUnsetOnVolume(old(resourceStates)[name], volNr, field).IsEmpty()
      ensures name in resourceStates ==> resourceStates[name] == ResourceUnsetOnVolume(old(resourceStates)[name], volNr, field)
      ensures name in resourceStates ==> resourceStates[name].fields == old(resourceStates)[name].fields
      ensures OthersUnchanged(name)
    {
      if name in resourceStates {
        var rs := ResourceUnsetOnVolume(resourceStates[name], volNr, field);
        if rs.IsEmpty() {
          resourceStates := resourceStates - {name};
        } else {
          resourceStates := resourceStates[name := rs];
        }
      }
    }
  }

  /** A resource state as the setters and unsetters leave it: no volume
      state is empty. */
  predicate NoEmptyVolumes<V>(rs: ResourceState<V>) {
    forall n :: n in rs.volumeStates ==> !rs.volumeStates[n].IsEmpty()
  }

  /** Unsetting a volume field forgets any value set just before: the result
      is the same as unsetting it directly. */
  lemma UnsetAfterSetOnVolume<V>(rs: ResourceState<V>, volNr: int, field: FieldName, v: V)
    ensures ResourceUnsetOnVolume(ResourceSetOnVolume(rs, volNr, field, Some(v)), volNr, field)
         == ResourceUnsetOnVolume(rs, volNr, field)
  {
    var old_fields := if volNr in rs.volumeStates then rs.volumeStates[volNr].fields else map[];
    var mid := ResourceSetOnVolume(rs, volNr, field, Some(v));
    assert mid.volumeStates[volNr].fields - {field} == old_fields - {field};
    if volNr !in rs.volumeStates {
      assert mid.volumeStates[volNr].fields - {field} == map[];
      assert mid.volumeStates - {volNr} == rs.volumeStates;
    }
  }

  /** Setting a field of a volume where it was unset and unsetting it again
      gives back the original resource state, for a volume that was absent
      or that holds other fields. */
  lemma VolumeUnsetUndoesSet<V>(rs: ResourceState<V>, volNr: int, field: FieldName, v: V)
    requires NoEmptyVolumes(rs)
    requires ResourceGetFromVolume(rs, volNr, field).None?
    ensures ResourceUnsetOnVolume(ResourceSetOnVolume(rs, volNr, field, Some(v)), volNr, field) == rs
  {
    UnsetAfterSetOnVolume(rs, volNr, field, v);
    if volNr in rs.volumeStates {
      var vs := rs.volumeStates[volNr];
      assert field !in vs.fields;
      assert vs.fields - {field} == vs.fields;
      assert vs.fields != map[];
      assert rs.volumeStates[volNr := VolumeState(vs.fields - {field})] == rs.volumeStates;
    }
  }
}
