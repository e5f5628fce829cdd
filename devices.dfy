/**
 * The dashboard's device catalog and the effect of each device mutation,
 * stated as pure functions on the list of devices (script.js).
 * The class in dashboard.dfy performs these mutations in place and is
 * proved to agree with the functions here.
 */
module Devices {
  import opened Wrappers

  /** The four device types. */
  datatype Kind = Lighting | ClimateControl | Security | Entertainment

  /** The `type` string the dashboard stores for each kind. */
  function Label(k: Kind): string
  {
    match k
    case Lighting => "Lighting"
    case ClimateControl => "Climate Control"
    case Security => "Security"
    case Entertainment => "Entertainment"
  }

  /**
   * One device record. `value` is brightness, temperature or volume
   * depending on the kind, and `None` (JavaScript `null`) for Security.
   */
  datatype Device = Device(id: int, name: string, kind: Kind, status: bool, value: Option<int>)

  /** Ids are pairwise distinct. */
  ghost predicate UniqueIds(ds: seq<Device>)
  {
    forall i, j :: 0 <= i < j < |ds| ==> ds[i].id != ds[j].id
  }

  /** `a` and `b` have the same length, and position by position the same id, name and type. */
  ghost predicate SameFrame(a: seq<Device>, b: seq<Device>)
  {
    |a| == |b| &&
    forall i :: 0 <= i < |a| ==> a[i].id == b[i].id && a[i].name == b[i].name && a[i].kind == b[i].kind
  }

  /** Every Security device carries no value. */
  ghost predicate NoSecurityValue(ds: seq<Device>)
  {
    forall i :: 0 <= i < |ds| && ds[i].kind == Security ==> ds[i].value.None?
  }

  /** The compiled-in catalog of eight devices, all off. */
  function Catalog(): (c: seq<Device>)
    ensures |c| == 8
    ensures forall i :: 0 <= i < |c| ==> c[i].id == i + 1 && !c[i].status
    ensures forall i :: 0 <= i < |c| ==> (c[i].value.None? <==> c[i].kind == Security)
  {
    [ Device(1, "Living Room Lights", Lighting, false, Some(50)),
      Device(2, "Thermostat", ClimateControl, false, Some(22)),
      Device(3, "Security Camera", Security, false, None),
      Device(4, "Smart TV", Entertainment, false, Some(30)),
      Device(5, "Air Conditioner", ClimateControl, false, Some(24)),
      Device(6, "Door Lock", Security, false, None),
      Device(7, "Smart Speaker", Entertainment, false, Some(40)),
      Device(8, "Garage Door", Security, false, None) ]
  }

  /** The catalog's ids are unique and its Security devices have no value. */
  lemma CatalogWellFormed()
    ensures UniqueIds(Catalog()) && NoSecurityValue(Catalog())
  {
  }

  /**
   * `devices.find(d => d.id === id)`, as the index of the first device
   * with that id, or `None` when there is none.
   */
  function FirstIndex(ds: seq<Device>, id: int): (r: Option<nat>)
    ensures r.Some? ==> r.value < |ds| && ds[r.value].id == id
    ensures r.Some? ==> forall j :: 0 <= j < r.value ==> ds[j].id != id
    ensures r.None? <==> forall j :: 0 <= j < |ds| ==> ds[j].id != id
    decreases |ds|
  {
    if ds == [] then None
    else if ds[0].id == id then Some(0)
    else match FirstIndex(ds[1..], id)
      case None => None
      case Some(k) => Some(k + 1)
  }

  /** With unique ids, `find` on the id of device `i` lands on `i`. */
  lemma FirstIndexOfUnique(ds: seq<Device>, i: nat)
    requires UniqueIds(ds) && i < |ds|
    ensures FirstIndex(ds, ds[i].id) == Some(i)
  {
  }

  /** Lookup by id sees only ids, so lists with the same frame agree on it. */
  lemma FirstIndexSameFrame(a: seq<Device>, b: seq<Device>, id: int)
    requires SameFrame(a, b)
    ensures FirstIndex(a, id) == FirstIndex(b, id)
  {
    var ra, rb := FirstIndex(a, id), FirstIndex(b, id);
    if ra.Some? && rb.Some? {
      assert a[rb.value].id == id;
      assert b[ra.value].id == id;
    }
  }

  /** `toggleDevice(id)`: the device found by id has its status negated. */
  function Toggled(ds: seq<Device>, id: int): (r: seq<Device>)
    ensures SameFrame(ds, r)
    ensures forall i :: 0 <= i < |ds| ==> r[i].value == ds[i].value
    ensures forall i :: 0 <= i < |ds| && ds[i].id != id ==> r[i] == ds[i]
    ensures (forall i :: 0 <= i < |ds| ==> ds[i].id != id) ==> r == ds
    ensures NoSecurityValue(ds) ==> NoSecurityValue(r)
  {
    match FirstIndex(ds, id)
    case None => ds
    case Some(k) => ds[k := ds[k].(status := !ds[k].status)]
  }

  /** With unique ids, exactly the device with that id changes status. */
  lemma ToggledFlipsOnlyTarget(ds: seq<Device>, id: int, i: nat)
    requires UniqueIds(ds) && i < |ds|
    ensures Toggled(ds, id)[i].status == (if ds[i].id == id then !ds[i].status else ds[i].status)
  {
    if ds[i].id == id {
      FirstIndexOfUnique(ds, i);
    }
  }

  /** Toggling the same id twice restores the list. */
  lemma {:induction false} ToggledTwice(ds: seq<Device>, id: int)
    ensures Toggled(Toggled(ds, id), id) == ds
  {
    FirstIndexSameFrame(ds, Toggled(ds, id), id);
  }

  /**
   * `changeTemp`, `changeBrightness` and `changeVolume`: the device found by
   * id gets exactly the given value, whatever its type and whatever the number.
   */
  function ValueSet(ds: seq<Device>, id: int, v: int): (r: seq<Device>)
    ensures SameFrame(ds, r)
    ensures forall i :: 0 <= i < |ds| ==> r[i].status == ds[i].status
    ensures forall i :: 0 <= i < |ds| && ds[i].id != id ==> r[i] == ds[i]
    ensures (forall i :: 0 <= i < |ds| ==> ds[i].id != id) ==> r == ds
  {
    match FirstIndex(ds, id)
    case None => ds
    case Some(k) => ds[k := ds[k].(value := Some(v))]
  }

  /** With unique ids, the device with that id holds exactly `v`, unclamped. */
  lemma ValueSetTarget(ds: seq<Device>, id: int, v: int, i: nat)
    requires UniqueIds(ds) && i < |ds| && ds[i].id == id
    ensures ValueSet(ds, id, v)[i].value == Some(v)
  {
    FirstIndexOfUnique(ds, i);
  }

  /** A second setter call on the same id overrides the first. */
  lemma {:induction false} ValueSetOverrides(ds: seq<Device>, id: int, v: int, w: int)
    ensures ValueSet(ValueSet(ds, id, v), id, w) == ValueSet(ds, id, w)
  {
    FirstIndexSameFrame(ds, ValueSet(ds, id, v), id);
  }

  /** A setter keeps Security devices value-free unless it targets one of them. */
  lemma ValueSetKeepsSecurityNull(ds: seq<Device>, id: int, v: int)
    requires NoSecurityValue(ds)
    requires forall i :: 0 <= i < |ds| && ds[i].id == id ==> ds[i].kind != Security
    ensures NoSecurityValue(ValueSet(ds, id, v))
  {
  }

  /** The setters do not check the type: setting the Security Camera gives it a value. */
  lemma ValueSetReachesSecurity()
    ensures !NoSecurityValue(ValueSet(Catalog(), 3, 50))
  {
    var r := ValueSet(Catalog(), 3, 50);
    assert FirstIndex(Catalog(), 3) == Some(2);
    assert r[2].kind == Security && r[2].value == Some(50);
  }

  /** `setAll(s)`: every status becomes `s`. */
  function AllSet(ds: seq<Device>, s: bool): (r: seq<Device>)
    ensures SameFrame(ds, r)
    ensures forall i :: 0 <= i < |ds| ==> r[i].status == s && r[i].value == ds[i].value
    ensures NoSecurityValue(ds) ==> NoSecurityValue(r)
  {
    seq(|ds|, i requires 0 <= i < |ds| => ds[i].(status := s))
  }

  /**
   * `autoMode()`: device `i` takes the status `coins[i]`; the random draws
   * (`Math.random() > 0.5`) are the input `coins`.
   */
  function AutoSet(ds: seq<Device>, coins: seq<bool>): (r: seq<Device>)
    requires |coins| == |ds|
    ensures SameFrame(ds, r)
    ensures forall i :: 0 <= i < |ds| ==> r[i].status == coins[i] && r[i].value == ds[i].value
    ensures NoSecurityValue(ds) ==> NoSecurityValue(r)
  {
    seq(|ds|, i requires 0 <= i < |ds| => ds[i].(status := coins[i]))
  }

  lemma SameFrameTransitive(a: seq<Device>, b: seq<Device>, c: seq<Device>)
    requires SameFrame(a, b) && SameFrame(b, c)
    ensures SameFrame(a, c)
  {
  }

  /** Mutations keep ids unique, since they keep every id in place. */
  lemma SameFrameKeepsUniqueIds(a: seq<Device>, b: seq<Device>)
    requires SameFrame(a, b) && UniqueIds(a)
    ensures UniqueIds(b)
  {
  }
}
