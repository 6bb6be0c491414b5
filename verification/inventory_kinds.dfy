/** The constructors of the resource classes. Each one runs its parent's
    checks first (the `id` check of `Resource`, then the `capacity` check of
    `Storage`) and then its own, and fails with the first check that does
    not hold. Integer arguments arrive already converted by `int(...)` and
    string arguments by `str(...)`. */
module InventoryKinds {
  import opened Wrappers
  import opened InventoryResource

  const IdMsg := "'id' must be a non-negative integer"
  const CapacityMsg := "'capacity' must be a positive integer"
  const RpmMsg := "'rpm' must be a positive integer"
  const CoresMsg := "'cores' must be a positive integer"
  const PowerMsg := "'power_watts' must be a positive integer"

  /** `Resource(id, manufacturer)`. */
  function MakeResource(id: int, manufacturer: string): (r: Result<Spec, ValueError>)
    ensures id < 0 <==> r == Err(ValueError(IdMsg))
    ensures r.Ok? ==> WellFormed(r.value) && r.value.kind == BaseResource
    ensures r.Ok? ==> r.value.attrs["id"] == AInt(id) && r.value.attrs["manufacturer"] == AStr(manufacturer)
  {
    if id < 0 then Err(ValueError(IdMsg))
    else Ok(Spec(BaseResource, map["id" := AInt(id), "manufacturer" := AStr(manufacturer)]))
  }

  /** A spec extended to a subclass by the subclass's own attributes. */
  function Extend(base: Spec, kind: Kind, more: map<string, AttrVal>): Spec {
    Spec(kind, base.attrs + more)
  }

  /** `Storage(id, manufacturer, capacity)`. */
  function MakeStorage(id: int, manufacturer: string, capacity: int): (r: Result<Spec, ValueError>)
    ensures r.Ok? ==> WellFormed(r.value) && r.value.kind == Storage
    ensures r.Ok? ==> r.value.attrs["id"] == AInt(id) && r.value.attrs["manufacturer"] == AStr(manufacturer)
    ensures r.Ok? ==> r.value.attrs["capacity"] == AInt(capacity)
  {
    match MakeResource(id, manufacturer)
    case Err(e) => Err(e)
    case Ok(base) =>
      if capacity < 1 then Err(ValueError(CapacityMsg))
      else Ok(Extend(base, Storage, map["capacity" := AInt(capacity)]))
  }

  /** `HDD(id, manufacturer, capacity, size, rpm)`. */
  function MakeHDD(id: int, manufacturer: string, capacity: int, size: string, rpm: int): (r: Result<Spec, ValueError>)
    ensures r.Ok? ==> WellFormed(r.value) && r.value.kind == HDD
    ensures r.Ok? ==> r.value.attrs["id"] == AInt(id) && r.value.attrs["manufacturer"] == AStr(manufacturer)
    ensures r.Ok? ==> r.value.attrs["capacity"] == AInt(capacity)
    ensures r.Ok? ==> r.value.attrs["size"] == AStr(size) && r.value.attrs["rpm"] == AInt(rpm)
  {
    match MakeStorage(id, manufacturer, capacity)
    case Err(e) => Err(e)
    case Ok(base) =>
      if rpm < 1 then Err(ValueError(RpmMsg))
      else Ok(Extend(base, HDD, map["size" := AStr(size), "rpm" := AInt(rpm)]))
  }

  /** `SSD(id, manufacturer, capacity, interface)`: no check of its own. */
  function MakeSSD(id: int, manufacturer: string, capacity: int, interface: string): (r: Result<Spec, ValueError>)
    ensures r.Ok? ==> WellFormed(r.value) && r.value.kind == SSD
    ensures r.Ok? ==> r.value.attrs["id"] == AInt(id) && r.value.attrs["manufacturer"] == AStr(manufacturer)
    ensures r.Ok? ==> r.value.attrs["capacity"] == AInt(capacity) && r.value.attrs["interface"] == AStr(interface)
  {
    match MakeStorage(id, manufacturer, capacity)
    case Err(e) => Err(e)
    case Ok(base) => Ok(Extend(base, SSD, map["interface" := AStr(interface)]))
  }

  /** `CPU(id, manufacturer, cores, socket, power_watts)`. */
  function MakeCPU(id: int, manufacturer: string, cores: int, socket: string, powerWatts: int): (r: Result<Spec, ValueError>)
    ensures r.Ok? ==> WellFormed(r.value) && r.value.kind == CPU
    ensures r.Ok? ==> r.value.attrs["id"] == AInt(id) && r.value.attrs["manufacturer"] == AStr(manufacturer)
    ensures r.Ok? ==> r.value.attrs["cores"] == AInt(cores) && r.value.attrs["socket"] == AStr(socket)
    ensures r.Ok? ==> r.value.attrs["power_watts"] == AInt(powerWatts)
  {
    match MakeResource(id, manufacturer)
    case Err(e) => Err(e)
    case Ok(base) =>
      if cores < 1 then Err(ValueError(CoresMsg))
      else if powerWatts < 1 then Err(ValueError(PowerMsg))
      else Ok(Extend(base, CPU, map["cores" := AInt(cores), "socket" := AStr(socket), "power_watts" := AInt(powerWatts)]))
  }

  /** Which check fails, in the order the constructors run them. */
  lemma StorageErrors(id: int, manufacturer: string, capacity: int, size: string, rpm: int, interface: string)
    ensures id < 0 ==>
      && MakeStorage(id, manufacturer, capacity) == Err(ValueError(IdMsg))
      && MakeHDD(id, manufacturer, capacity, size, rpm) == Err(ValueError(IdMsg))
      && MakeSSD(id, manufacturer, capacity, interface) == Err(ValueError(IdMsg))
    ensures 0 <= id && capacity < 1 ==>
      && MakeStorage(id, manufacturer, capacity) == Err(ValueError(CapacityMsg))
      && MakeHDD(id, manufacturer, capacity, size, rpm) == Err(ValueError(CapacityMsg))
      && MakeSSD(id, manufacturer, capacity, interface) == Err(ValueError(CapacityMsg))
    ensures 0 <= id && 1 <= capacity ==>
      && MakeStorage(id, manufacturer, capacity).Ok?
      && MakeSSD(id, manufacturer, capacity, interface).Ok?
      && (MakeHDD(id, manufacturer, capacity, size, rpm).Ok? <==> 1 <= rpm)
      && (rpm < 1 ==> MakeHDD(id, manufacturer, capacity, size, rpm) == Err(ValueError(RpmMsg)))
  {
  }

  lemma CPUErrors(id: int, manufacturer: string, cores: int, socket: string, powerWatts: int)
    ensures id < 0 ==> MakeCPU(id, manufacturer, cores, socket, powerWatts) == Err(ValueError(IdMsg))
    ensures 0 <= id && cores < 1 ==> MakeCPU(id, manufacturer, cores, socket, powerWatts) == Err(ValueError(CoresMsg))
    ensures 0 <= id && 1 <= cores && powerWatts < 1 ==>
      MakeCPU(id, manufacturer, cores, socket, powerWatts) == Err(ValueError(PowerMsg))
    ensures MakeCPU(id, manufacturer, cores, socket, powerWatts).Ok? <==> 0 <= id && 1 <= cores && 1 <= powerWatts
  {
  }

  /** A constructed HDD carries its arguments as components, in composition
      order. */
  lemma HDDComponents(id: int, manufacturer: string, capacity: int, size: string, rpm: int)
    requires MakeHDD(id, manufacturer, capacity, size, rpm).Ok?
    ensures var s := MakeHDD(id, manufacturer, capacity, size, rpm).value;
      Components(s) == [("id", AInt(id)), ("manufacturer", AStr(manufacturer)), ("capacity", AInt(capacity)),
                        ("size", AStr(size)), ("rpm", AInt(rpm))]
  {
    HDDSpecComponents(MakeHDD(id, manufacturer, capacity, size, rpm).value, id, manufacturer, capacity, size, rpm);
  }

  /** The components of a well-formed HDD spec are read off its attributes. */
  lemma HDDSpecComponents(s: Spec, id: int, manufacturer: string, capacity: int, size: string, rpm: int)
    requires WellFormed(s) && s.kind == HDD
    requires s.attrs["id"] == AInt(id) && s.attrs["manufacturer"] == AStr(manufacturer)
    requires s.attrs["capacity"] == AInt(capacity)
    requires s.attrs["size"] == AStr(size) && s.attrs["rpm"] == AInt(rpm)
    ensures Components(s) == [("id", AInt(id)), ("manufacturer", AStr(manufacturer)), ("capacity", AInt(capacity)),
                              ("size", AStr(size)), ("rpm", AInt(rpm))]
  {
    var r := Components(s);
    var comp := Composition(HDD);
    assert comp == ["id", "manufacturer", "capacity", "size", "rpm"];
    assert r[0] == (comp[0], s.attrs[comp[0]]) && r[1] == (comp[1], s.attrs[comp[1]]);
    assert r[2] == (comp[2], s.attrs[comp[2]]) && r[3] == (comp[3], s.attrs[comp[3]]) && r[4] == (comp[4], s.attrs[comp[4]]);
  }
}
