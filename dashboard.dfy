/**
 * The dashboard's mutable state (script.js): the module-level `devices`
 * array and the `currentFilter` variable, with the operations that change
 * them in place. Each method that changes the device array is proved to
 * have the effect of the matching pure function in devices.dfy or
 * snapshot.dfy; the lookup loop is proved equal to `FirstIndex`, and
 * changing the filter touches only the filter. Saving, re-rendering and
 * notifications after each mutation are not part of this model.
 */
module Dashboard {
  import opened Wrappers
  import opened Devices
  import opened Snapshots
  import Keyboard
  import Views

  class Dashboard {
    var devices: array<Device>
    var currentFilter: string

    /** The array still holds the catalog's devices, in catalog order, with their ids, names and types. */
    ghost predicate Valid()
      reads this, devices
    {
      SameFrame(devices[..], Catalog())
    }

    /** The list `renderDevices` shows: the devices under the current filter. */
    function Visible(): (r: seq<Device>)
      reads this, devices
      ensures forall d :: d in r <==> d in devices[..] && (currentFilter == "All" || Label(d.kind) == currentFilter)
    {
      Views.View(devices[..], currentFilter)
    }

    /** The page as first loaded: the compiled-in catalog, filter `"All"`. */
    constructor ()
      ensures Valid() && fresh(devices)
      ensures devices[..] == Catalog() && currentFilter == "All"
    {
      var catalog := Catalog();
      devices := new Device[|catalog|](i requires 0 <= i < |catalog| => catalog[i]);
      currentFilter := "All";
    }

    /** `devices.find(d => d.id === id)`: the position of the first device with that id. */
    method FindDevice(id: int) returns (r: Option<nat>)
      ensures r == FirstIndex(devices[..], id)
    {
      var i := 0;
      while i < devices.Length
        invariant 0 <= i <= devices.Length
        invariant forall j :: 0 <= j < i ==> devices[j].id != id
      {
        if devices[i].id == id {
          assert FirstIndex(devices[..], id) != None;
          return Some(i);
        }
        i := i + 1;
      }
      r := None;
    }

    /** `toggleDevice(id)`; an unknown id changes nothing. */
    method ToggleDevice(id: int)
      requires Valid()
      modifies devices
      ensures Valid()
      ensures devices[..] == Toggled(old(devices[..]), id)
    {
      var found := FindDevice(id);
      if found.Some? {
        var k := found.value;
        devices[k] := devices[k].(status := !devices[k].status);
      }
    }

    /** The shared body of the three slider handlers: store the parsed value unchecked. */
    method SetDeviceValue(id: int, v: int)
      requires Valid()
      modifies devices
      ensures Valid()
      ensures devices[..] == ValueSet(old(devices[..]), id, v)
    {
      var found := FindDevice(id);
      if found.Some? {
        var k := found.value;
        devices[k] := devices[k].(value := Some(v));
      }
    }

    /** `changeTemp(id, value)`, with `value` already parsed; no 16 to 30 check. */
    method ChangeTemp(id: int, v: int)
      requires Valid()
      modifies devices
      ensures Valid()
      ensures devices[..] == ValueSet(old(devices[..]), id, v)
    {
      SetDeviceValue(id, v);
    }

    /** `changeBrightness(id, value)`, with `value` already parsed; no 0 to 100 check. */
    method ChangeBrightness(id: int, v: int)
      requires Valid()
      modifies devices
      ensures Valid()
      ensures devices[..] == ValueSet(old(devices[..]), id, v)
    {
      SetDeviceValue(id, v);
    }

    /** `changeVolume(id, value)`, with `value` already parsed; no 0 to 100 check. */
    method ChangeVolume(id: int, v: int)
      requires Valid()
      modifies devices
      ensures Valid()
      ensures devices[..] == ValueSet(old(devices[..]), id, v)
    {
      SetDeviceValue(id, v);
    }

    /** `setAll(state)`: the `forEach` loop setting every status. */
    method SetAll(state: bool)
      requires Valid()
      modifies devices
      ensures Valid()
      ensures devices[..] == AllSet(old(devices[..]), state)
    {
      var i := 0;
      while i < devices.Length
        invariant 0 <= i <= devices.Length
        invariant forall j :: 0 <= j < i ==> devices[j] == old(devices[j]).(status := state)
        invariant forall j :: i <= j < devices.Length ==> devices[j] == old(devices[j])
      {
        devices[i] := devices[i].(status := state);
        i := i + 1;
      }
    }

    /** `autoMode()`, with the random draws given as `coins`, one per device. */
    method AutoMode(coins: seq<bool>)
      requires Valid() && |coins| == devices.Length
      modifies devices
      ensures Valid()
      ensures devices[..] == AutoSet(old(devices[..]), coins)
    {
      var i := 0;
      while i < devices.Length
        invariant 0 <= i <= devices.Length
        invariant forall j :: 0 <= j < i ==> devices[j] == old(devices[j]).(status := coins[j])
        invariant forall j :: i <= j < devices.Length ==> devices[j] == old(devices[j])
      {
        if coins[i] {
          devices[i] := devices[i].(status := true);
        } else {
          devices[i] := devices[i].(status := false);
        }
        i := i + 1;
      }
    }

    /** `filterDevices(type)`: only the filter changes (the button highlighting is not modelled). */
    method FilterDevices(filter: string)
      requires Valid()
      modifies this
      ensures Valid()
      ensures currentFilter == filter && devices == old(devices)
      ensures Visible() == Views.View(devices[..], filter)
    {
      currentFilter := filter;
    }

    /** The `forEach` callback of `loadState` for one saved entry. */
    method MergeSaved(e: Entry)
      modifies devices
      ensures devices[..] == MergeEntry(old(devices[..]), e)
    {
      var found := FindDevice(e.id);
      if found.Some? {
        var i := found.value;
        devices[i] := devices[i].(status := e.status);
        if e.value.Present? {
          devices[i] := devices[i].(value := e.value.content);
        }
      }
    }

    /**
     * `loadState()`. `saved` is `None` when nothing is stored or the stored
     * text does not parse; the list is then left as it is.
     */
    method LoadState(saved: Option<Snapshot>)
      requires Valid()
      modifies devices
      ensures Valid()
      ensures devices[..] == if saved.None? then old(devices[..]) else Merged(old(devices[..]), saved.value.devices)
    {
      if saved.Some? {
        MergeAll(saved.value.devices);
        SameFrameTransitive(Catalog(), old(devices[..]), devices[..]);
      }
    }

    /** The `forEach` loop of `loadState` over the saved entries. */
    method MergeAll(es: seq<Entry>)
      modifies devices
      ensures devices[..] == Merged(old(devices[..]), es)
    {
      var k := 0;
      while k < |es|
        invariant 0 <= k <= |es|
        invariant devices[..] == Merged(old(devices[..]), es[..k])
      {
        assert es[..k + 1][..k] == es[..k];
        MergeSaved(es[k]);
        k := k + 1;
      }
      assert es[..|es|] == es;
    }

    /** The keydown handler: toggle the device named by the key, if the key passes the guard and the device exists. */
    method HandleKey(key: string)
      requires Valid()
      modifies devices
      ensures Valid()
      ensures devices[..] == match Keyboard.KeyTarget(key)
        case None => old(devices[..])
        case Some(id) => Toggled(old(devices[..]), id)
    {
      if Keyboard.InRange(key) {
        var id := Keyboard.ParseLeadingInt(key);
        var found := FindDevice(id);
        if found.Some? {
          ToggleDevice(id);
        }
      }
    }
  }
}
