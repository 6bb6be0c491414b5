/** An inventory resource: the values that identify it (its composition) and
    two counters, the units in stock and the units allocated, kept so that
    0 <= allocated <= total. */
module InventoryResource {
  import opened Wrappers
  import opened Text

  /** The resource classes: `Resource` and its subclasses. */
  datatype Kind = BaseResource | Storage | HDD | SSD | CPU

  /** `isinstance` over the class tree: Storage below Resource, HDD and SSD
      below Storage, CPU below Resource. */
  predicate IsInstance(k: Kind, cls: Kind) {
    k == cls || cls == BaseResource || (cls == Storage && (k == HDD || k == SSD))
  }

  function ClassName(k: Kind): string {
    match k
    case BaseResource => "Resource"
    case Storage => "Storage"
    case HDD => "HDD"
    case SSD => "SSD"
    case CPU => "CPU"
  }

  /** `category`: the class name in lower case. */
  function CategoryOf(k: Kind): string {
    match k
    case BaseResource => "resource"
    case Storage => "storage"
    case HDD => "hdd"
    case SSD => "ssd"
    case CPU => "cpu"
  }

  /** Each category is its class name lowered, and no two classes share
      one. */
  lemma CategoryNames()
    ensures forall k :: CategoryOf(k) == Lower(ClassName(k))
    ensures forall k, l :: CategoryOf(k) == CategoryOf(l) ==> k == l
  {
    assert Lower("Resource") == "resource";
    assert Lower("Storage") == "storage";
    assert Lower("HDD") == "hdd";
    assert Lower("SSD") == "ssd";
    assert Lower("CPU") == "cpu";
  }

  /** `_composition`: the attributes that identify a resource of each class. */
  function Composition(k: Kind): seq<string> {
    match k
    case BaseResource => ["id", "manufacturer"]
    case Storage => ["id", "manufacturer", "capacity"]
    case HDD => ["id", "manufacturer", "capacity", "size", "rpm"]
    case SSD => ["id", "manufacturer", "capacity", "interface"]
    case CPU => ["id", "manufacturer", "cores", "socket", "power_watts"]
  }

  /** Attribute values: the constructors store integers and strings. */
  datatype AttrVal = AInt(i: int) | AStr(s: string)

  /** What a constructor fixes: the class and the composition values. */
  datatype Spec = Spec(kind: Kind, attrs: map<string, AttrVal>)

  /** `set(_composition)`. */
  function CompositionSet(k: Kind): (r: set<string>)
    ensures r == set a | a in Composition(k)
  {
    match k
    case BaseResource => {"id", "manufacturer"}
    case Storage => {"id", "manufacturer", "capacity"}
    case HDD => {"id", "manufacturer", "capacity", "size", "rpm"}
    case SSD => {"id", "manufacturer", "capacity", "interface"}
    case CPU => {"id", "manufacturer", "cores", "socket", "power_watts"}
  }

  /** The stored values are exactly those of the class's composition. */
  predicate WellFormed(s: Spec) {
    s.attrs.Keys == CompositionSet(s.kind)
  }

  /** The specs a constructor can produce. */
  type WfSpec = s: Spec | WellFormed(s)
    witness Spec(BaseResource, map["id" := AInt(0), "manufacturer" := AStr("")])

  /** Different classes have different compositions. */
  lemma CompositionsDiffer(k: Kind, l: Kind)
    requires k != l
    ensures CompositionSet(k) != CompositionSet(l)
  {
    var ck, cl := CompositionSet(k), CompositionSet(l);
    assert "id" in ck && "id" in cl;
    match k
    case BaseResource => assert Composition(l)[2] in cl;
    case Storage =>
      assert "capacity" in ck;
      if l != BaseResource { assert Composition(l)[3] in cl; }
    case HDD => assert "rpm" in ck;
    case SSD => assert "interface" in ck;
    case CPU => assert "cores" in ck;
  }

  /** `frozenset(self.composition()) == frozenset(other.composition())`:
      compositions are equal as sets exactly for the same class. */
  function SameComposition(k: Kind, l: Kind): (b: bool)
    ensures b <==> CompositionSet(k) == CompositionSet(l)
  {
    if k == l then true
    else
      CompositionsDiffer(k, l);
      false
  }

  /** `components`: (attribute, value) pairs in composition order. */
  function Components(s: Spec): (r: seq<(string, AttrVal)>)
    requires WellFormed(s)
    ensures |r| == |Composition(s.kind)|
    ensures forall i :: 0 <= i < |r| ==> r[i].0 == Composition(s.kind)[i] && r[i].1 == s.attrs[r[i].0]
  {
    var comp := Composition(s.kind);
    seq(|comp|, i requires 0 <= i < |comp| => (comp[i], s.attrs[comp[i]]))
  }

  // ---------------------------------------------------------------------
  // __eq__

  /** What a resource can be compared with. */
  datatype Other = ODict(d: map<string, AttrVal>) | OResource(spec: Spec) | OOther

  /** The loop over the composition against a dictionary: a missing key or
      a different value makes the comparison false. */
  function EqDict(s: Spec, comp: seq<string>, d: map<string, AttrVal>): (b: bool)
    requires forall i :: 0 <= i < |comp| ==> comp[i] in s.attrs
    ensures b <==> forall i :: 0 <= i < |comp| ==> comp[i] in d && d[comp[i]] == s.attrs[comp[i]]
  {
    if comp == [] then true
    else if comp[0] !in d || s.attrs[comp[0]] != d[comp[0]] then false
    else
      assert forall i :: 1 <= i < |comp| ==> comp[i] == comp[1..][i - 1];
      EqDict(s, comp[1..], d)
  }

  /** `Resource.__eq__`; `None` is `NotImplemented`. */
  function EqMethod(s: Spec, other: Other): Option<bool>
    requires WellFormed(s)
  {
    match other
    case ODict(d) => Some(EqDict(s, Composition(s.kind), d))
    case OOther => None
    case OResource(o) =>
      if !IsInstance(o.kind, s.kind) then None
      else if !SameComposition(s.kind, o.kind) then Some(false)
      else Some(EqDict(s, Composition(s.kind), o.attrs))
  }

  /** The `==` operator between two distinct resource objects: the left
      operand's `__eq__`, then the reflected one, then identity (false). */
  function Equal(a: Spec, b: Spec): bool
    requires WellFormed(a) && WellFormed(b)
  {
    match EqMethod(a, OResource(b))
    case Some(v) => v
    case None =>
      match EqMethod(b, OResource(a))
      case Some(v) => v
      case None => false
  }

  /** Two resources are equal exactly when they are of the same class and
      hold the same composition values; the order of the operands does not
      matter. */
  lemma EqualIffSameSpec(a: Spec, b: Spec)
    requires WellFormed(a) && WellFormed(b)
    ensures Equal(a, b) <==> a == b
    ensures Equal(a, b) == Equal(b, a)
  {
    if a.kind == b.kind {
      SameKindEqual(a, b);
    } else {
      OtherKindUnequal(a, b);
    }
  }

  /** Resources of different classes: neither `__eq__` says equal. */
  lemma OtherKindUnequal(a: Spec, b: Spec)
    requires WellFormed(a) && WellFormed(b) && a.kind != b.kind
    ensures !Equal(a, b) && !Equal(b, a)
  {
    assert EqMethod(a, OResource(b)) != Some(true);
    assert EqMethod(b, OResource(a)) != Some(true);
  }

  /** Resources of one class: the comparison loop decides. */
  lemma SameKindEqual(a: Spec, b: Spec)
    requires WellFormed(a) && WellFormed(b) && a.kind == b.kind
    ensures Equal(a, b) == (a == b) == Equal(b, a)
  {
    var comp := Composition(a.kind);
    assert Equal(a, b) == (a == b) by {
      assert Equal(a, b) == EqDict(a, comp, b.attrs);
      SameValues(a.kind, a.attrs, b.attrs);
    }
    assert Equal(b, a) == (a == b) by {
      assert Equal(b, a) == EqDict(b, comp, a.attrs);
      SameValues(a.kind, b.attrs, a.attrs);
    }
  }

  /** Two maps keyed by a class's composition are equal exactly when the
      loop over the composition finds the same values. */
  lemma SameValues(k: Kind, m1: map<string, AttrVal>, m2: map<string, AttrVal>)
    requires m1.Keys == CompositionSet(k) && m2.Keys == CompositionSet(k)
    ensures (forall i :: 0 <= i < |Composition(k)| ==> Composition(k)[i] in m2 && m2[Composition(k)[i]] == m1[Composition(k)[i]])
      <==> m1 == m2
  {
    var comp := Composition(k);
    if forall i :: 0 <= i < |comp| ==> comp[i] in m2 && m2[comp[i]] == m1[comp[i]] {
      forall key | key in m1 ensures m2[key] == m1[key] {
        assert key in CompositionSet(k);
        var i :| 0 <= i < |comp| && comp[i] == key;
      }
      assert m1 == m2;
    }
  }

  /** Against a dictionary: equal exactly when every composition attribute
      is a key holding the same value, whatever else the dictionary holds. */
  lemma EqDictMeaning(s: Spec, d: map<string, AttrVal>)
    requires WellFormed(s)
    ensures EqMethod(s, ODict(d)) == Some(forall a :: a in s.attrs ==> a in d && d[a] == s.attrs[a])
    ensures EqMethod(s, ODict(s.attrs)) == Some(true)
  {
    var comp := Composition(s.kind);
    assert forall a :: a in s.attrs ==> exists i :: 0 <= i < |comp| && comp[i] == a by {
      forall a | a in s.attrs ensures exists i :: 0 <= i < |comp| && comp[i] == a {
        assert a in CompositionSet(s.kind);
      }
    }
  }

  // ---------------------------------------------------------------------
  // The counters

  datatype ValueError = ValueError(message: string)

  const NegativeMsg := "Negative integer not allowed"
  const TotalBelowMsg := "'total' can't be smaller than 'allocated'"
  const AllocatedAboveMsg := "'allocated' can't be larger than 'total'"
  const NotEnoughMsg := "Not enough resources"
  const FreeTooMuchMsg := "Trying to free more than allocated"
  const RemoveTooMuchMsg := "Trying to remove more than available"

  class Resource {
    const spec: WfSpec
    var totalUnits: int
    var allocatedUnits: int

    /** The counters' invariant. */
    ghost predicate Valid() reads this {
      0 <= allocatedUnits <= totalUnits
    }

    function Category(): string {
      CategoryOf(spec.kind)
    }

    /** The counters of a new resource start at 0. */
    constructor (spec: WfSpec)
      ensures this.spec == spec && totalUnits == 0 && allocatedUnits == 0 && Valid()
    {
      this.spec := spec;
      allocatedUnits, totalUnits := 0, 0;
    }

    /** The `total` setter: no negative value, none below `allocated`. */
    method SetTotal(value: int) returns (r: Result<(), ValueError>)
      requires Valid()
      modifies this
      ensures Valid()
      ensures value < 0 ==> r == Err(ValueError(NegativeMsg)) && unchanged(this)
      ensures 0 <= value < old(allocatedUnits) ==> r == Err(ValueError(TotalBelowMsg)) && unchanged(this)
      ensures 0 <= value && old(allocatedUnits) <= value ==> r.Ok? && totalUnits == value && allocatedUnits == old(allocatedUnits)
    {
      if value < 0 {
        return Err(ValueError(NegativeMsg));
      }
      if value < allocatedUnits {
        return Err(ValueError(TotalBelowMsg));
      }
      totalUnits := value;
      return Ok(());
    }

    /** The `allocated` setter: no negative value, none above `total`. */
    method SetAllocated(value: int) returns (r: Result<(), ValueError>)
      requires Valid()
      modifies this
      ensures Valid()
      ensures value < 0 ==> r == Err(ValueError(NegativeMsg)) && unchanged(this)
      ensures 0 <= value && old(totalUnits) < value ==> r == Err(ValueError(AllocatedAboveMsg)) && unchanged(this)
      ensures 0 <= value <= old(totalUnits) ==> r.Ok? && allocatedUnits == value && totalUnits == old(totalUnits)
    {
      if value < 0 {
        return Err(ValueError(NegativeMsg));
      }
      if value > totalUnits {
        return Err(ValueError(AllocatedAboveMsg));
      }
      allocatedUnits := value;
      return Ok(());
    }

    /** `claim`: `n` more units allocated, if that many are free. */
    method Claim(n: int) returns (r: Result<(), ValueError>)
      requires Valid()
      modifies this
      ensures Valid()
      ensures n < 0 ==> r == Err(ValueError(NegativeMsg)) && unchanged(this)
      ensures 0 <= n && old(totalUnits) - old(allocatedUnits) < n ==> r == Err(ValueError(NotEnoughMsg)) && unchanged(this)
      ensures 0 <= n <= old(totalUnits) - old(allocatedUnits) ==> r.Ok? && allocatedUnits == old(allocatedUnits) + n && totalUnits == old(totalUnits)
    {
      if n < 0 {
        return Err(ValueError(NegativeMsg));
      }
      if n > totalUnits - allocatedUnits {
        return Err(ValueError(NotEnoughMsg));
      }
      r := SetAllocated(allocatedUnits + n);
    }

    /** `freeup`: `n` allocated units released. */
    method Freeup(n: int) returns (r: Result<(), ValueError>)
      requires Valid()
      modifies this
      ensures Valid()
      ensures n < 0 ==> r == Err(ValueError(NegativeMsg)) && unchanged(this)
      ensures 0 <= n && old(allocatedUnits) < n ==> r == Err(ValueError(FreeTooMuchMsg)) && unchanged(this)
      ensures 0 <= n <= old(allocatedUnits) ==> r.Ok? && allocatedUnits == old(allocatedUnits) - n && totalUnits == old(totalUnits)
    {
      if n < 0 {
        return Err(ValueError(NegativeMsg));
      }
      if n > allocatedUnits {
        return Err(ValueError(FreeTooMuchMsg));
      }
      r := SetAllocated(allocatedUnits - n);
    }

    /** `remove`: `n` free units taken out of stock. */
    method Remove(n: int) returns (r: Result<(), ValueError>)
      requires Valid()
      modifies this
      ensures Valid()
      ensures n < 0 ==> r == Err(ValueError(NegativeMsg)) && unchanged(this)
      ensures 0 <= n && old(totalUnits) - old(allocatedUnits) < n ==> r == Err(ValueError(RemoveTooMuchMsg)) && unchanged(this)
      ensures 0 <= n <= old(totalUnits) - old(allocatedUnits) ==> r.Ok? && totalUnits == old(totalUnits) - n && allocatedUnits == old(allocatedUnits)
    {
      if n < 0 {
        return Err(ValueError(NegativeMsg));
      }
      if n > totalUnits - allocatedUnits {
        return Err(ValueError(RemoveTooMuchMsg));
      }
      r := SetTotal(totalUnits - n);
    }

    /** `append`: `n` units added to stock. */
    method Append(n: int) returns (r: Result<(), ValueError>)
      requires Valid()
      modifies this
      ensures Valid()
      ensures n < 0 ==> r == Err(ValueError(NegativeMsg)) && unchanged(this)
      ensures 0 <= n ==> r.Ok? && totalUnits == old(totalUnits) + n && allocatedUnits == old(allocatedUnits)
    {
      if n < 0 {
        return Err(ValueError(NegativeMsg));
      }
      r := SetTotal(totalUnits + n);
    }

    /** `getattr` for the attributes a search can name: the composition
        values and the two counters. */
    function Lookup(name: string): (r: Option<AttrVal>)
      reads this
      ensures name in spec.attrs ==> r == Some(spec.attrs[name])
    {
      if name in spec.attrs then Some(spec.attrs[name])
      else if name == "total" then Some(AInt(totalUnits))
      else if name == "allocated" then Some(AInt(allocatedUnits))
      else None
    }

    /** `has`: every named attribute exists and holds the given value; with
        no components it holds. */
    function Has(components: seq<(string, AttrVal)>): (b: bool)
      reads this
      ensures b <==> forall i :: 0 <= i < |components| ==> Lookup(components[i].0) == Some(components[i].1)
    {
      if components == [] then true
      else if Lookup(components[0].0) != Some(components[0].1) then false
      else
        assert forall i :: 1 <= i < |components| ==> components[i] == components[1..][i - 1];
        Has(components[1..])
    }
  }

  /** A resource has its own components. */
  lemma HasOwnComponents(r: Resource)
    ensures r.Has(Components(r.spec))
  {
  }
}
