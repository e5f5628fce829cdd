/**
 * The read-only views of the device list (script.js): the filtered list
 * that is rendered, the per-type counts on the filter buttons and the
 * numbers of the statistics panel.
 */
module Views {
  import opened Wrappers
  import opened Devices

  /** `devices.filter(d => d.type === tag)`. */
  function OfType(ds: seq<Device>, tag: string): (r: seq<Device>)
    ensures |r| <= |ds|
    ensures forall d :: d in r <==> d in ds && Label(d.kind) == tag
  {
    if ds == [] then []
    else
      assert ds == [ds[0]] + ds[1..];
      (if Label(ds[0].kind) == tag then [ds[0]] else []) + OfType(ds[1..], tag)
  }

  /** Filtering distributes over concatenation, so it keeps catalog order. */
  lemma {:induction false} OfTypeAppend(a: seq<Device>, b: seq<Device>, tag: string)
    ensures OfType(a + b, tag) == OfType(a, tag) + OfType(b, tag)
  {
    if a == [] {
      assert a + b == b;
    } else {
      assert (a + b)[0] == a[0];
      assert (a + b)[1..] == a[1..] + b;
      OfTypeAppend(a[1..], b, tag);
    }
  }

  /** A single device is kept exactly when its type matches. */
  lemma OfTypeSingle(d: Device, tag: string)
    ensures OfType([d], tag) == if Label(d.kind) == tag then [d] else []
  {
    assert [d][1..] == [];
  }

  /**
   * The list `renderDevices` shows: the whole list under the filter `"All"`,
   * otherwise the devices whose type string equals the filter.
   */
  function View(ds: seq<Device>, filter: string): (r: seq<Device>)
    ensures |r| <= |ds|
    ensures forall d :: d in r <==> d in ds && (filter == "All" || Label(d.kind) == filter)
  {
    if filter == "All" then ds else OfType(ds, filter)
  }

  /** Under `"All"` the view is the whole list. */
  lemma ViewAll(ds: seq<Device>)
    ensures View(ds, "All") == ds
  {
  }

  /** Under a type's label the view holds exactly the devices of that type. */
  lemma ViewOfKind(ds: seq<Device>, k: Kind)
    ensures forall d :: d in View(ds, Label(k)) <==> d in ds && d.kind == k
  {
    assert Label(k) != "All";
    forall d: Device
      ensures Label(d.kind) == Label(k) <==> d.kind == k
    {
    }
  }

  /** A filter string that is neither `"All"` nor a type label shows nothing. */
  lemma {:induction false} ViewUnknownFilter(ds: seq<Device>, filter: string)
    requires filter != "All"
    requires forall k: Kind :: Label(k) != filter
    ensures View(ds, filter) == []
  {
    if ds != [] {
      ViewUnknownFilter(ds[1..], filter);
      assert Label(ds[0].kind) != filter;
    }
  }

  /** The counts shown on the four filter buttons. */
  datatype TypeCounts = TypeCounts(security: nat, climate: nat, entertainment: nat, lighting: nat)

  /** `updateFilterCounts`: the length of each type's filtered list. */
  function FilterCounts(ds: seq<Device>): (c: TypeCounts)
    ensures c.security == |View(ds, Label(Security))|
    ensures c.climate == |View(ds, Label(ClimateControl))|
    ensures c.entertainment == |View(ds, Label(Entertainment))|
    ensures c.lighting == |View(ds, Label(Lighting))|
  {
    TypeCounts(
      |OfType(ds, Label(Security))|,
      |OfType(ds, Label(ClimateControl))|,
      |OfType(ds, Label(Entertainment))|,
      |OfType(ds, Label(Lighting))|)
  }

  /** Every device has one of the four types, so the four counts add up to the total. */
  lemma {:induction false} FilterCountsSum(ds: seq<Device>)
    ensures var c := FilterCounts(ds);
      c.security + c.climate + c.entertainment + c.lighting == |ds|
  {
    if ds != [] {
      FilterCountsSum(ds[1..]);
      var c, c' := FilterCounts(ds), FilterCounts(ds[1..]);
      assert c.security == c'.security + (if ds[0].kind == Security then 1 else 0);
      assert c.climate == c'.climate + (if ds[0].kind == ClimateControl then 1 else 0);
      assert c.entertainment == c'.entertainment + (if ds[0].kind == Entertainment then 1 else 0);
      assert c.lighting == c'.lighting + (if ds[0].kind == Lighting then 1 else 0);
    }
  }

  /** `devices.filter(d => d.status).length`. */
  function ActiveCount(ds: seq<Device>): (n: nat)
    ensures n <= |ds|
    ensures n == |ds| <==> forall i :: 0 <= i < |ds| ==> ds[i].status
    ensures n == 0 <==> forall i :: 0 <= i < |ds| ==> !ds[i].status
  {
    if ds == [] then 0
    else (if ds[0].status then 1 else 0) + ActiveCount(ds[1..])
  }

  /** Counting active devices distributes over concatenation. */
  lemma {:induction false} ActiveCountAppend(a: seq<Device>, b: seq<Device>)
    ensures ActiveCount(a + b) == ActiveCount(a) + ActiveCount(b)
  {
    if a == [] {
      assert a + b == b;
    } else {
      assert (a + b)[0] == a[0];
      assert (a + b)[1..] == a[1..] + b;
      ActiveCountAppend(a[1..], b);
    }
  }

  /** A single device counts once exactly when it is on. */
  lemma ActiveCountSingle(d: Device)
    ensures ActiveCount([d]) == if d.status then 1 else 0
  {
    assert [d][1..] == [];
  }

  /** After `setAll(s)` all devices or none are active, and the statistics panel says so. */
  lemma ActiveAfterSetAll(ds: seq<Device>, s: bool)
    ensures ActiveCount(AllSet(ds, s)) == if s then |ds| else 0
    ensures ComputeStats(AllSet(ds, s)).active == if s then ComputeStats(ds).total else 0
  {
  }

  /** Whether a device feeds the average temperature. */
  predicate IsReading(d: Device)
  {
    d.kind == ClimateControl && d.status && d.value.Some?
  }

  /** The values of the active Climate Control devices that have one, in list order. */
  function ClimateReadings(ds: seq<Device>): (r: seq<int>)
    ensures |r| <= |ds|
    ensures r == [] <==> forall i :: 0 <= i < |ds| ==> !IsReading(ds[i])
    ensures forall x :: x in r <==> exists d :: d in ds && IsReading(d) && d.value == Some(x)
  {
    if ds == [] then []
    else
      assert ds == [ds[0]] + ds[1..];
      assert forall i :: 1 <= i < |ds| ==> ds[i] == ds[1..][i - 1];
      (if IsReading(ds[0]) then [ds[0].value.value] else []) + ClimateReadings(ds[1..])
  }

  /** Collecting readings distributes over concatenation: list order and repetitions are kept. */
  lemma {:induction false} ClimateReadingsAppend(a: seq<Device>, b: seq<Device>)
    ensures ClimateReadings(a + b) == ClimateReadings(a) + ClimateReadings(b)
  {
    if a == [] {
      assert a + b == b;
    } else {
      assert (a + b)[0] == a[0];
      assert (a + b)[1..] == a[1..] + b;
      ClimateReadingsAppend(a[1..], b);
    }
  }

  /** A single device contributes its value exactly when it is a reading. */
  lemma ClimateReadingsSingle(d: Device)
    ensures ClimateReadings([d]) == if IsReading(d) then [d.value.value] else []
  {
    assert [d][1..] == [];
  }

  function Sum(xs: seq<int>): int
  {
    if xs == [] then 0 else xs[0] + Sum(xs[1..])
  }

  /** A sum of `n` numbers between `lo` and `hi` lies between `n * lo` and `n * hi`. */
  lemma {:induction false} SumBounds(xs: seq<int>, lo: int, hi: int)
    requires forall i :: 0 <= i < |xs| ==> lo <= xs[i] <= hi
    ensures |xs| * lo <= Sum(xs) <= |xs| * hi
  {
    if xs != [] {
      SumBounds(xs[1..], lo, hi);
      assert |xs| * lo == lo + (|xs| - 1) * lo;
      assert |xs| * hi == hi + (|xs| - 1) * hi;
    }
  }

  /**
   * `Math.round(total / n)` for an integer total: the nearest integer,
   * halves rounded up.
   */
  function RoundedMean(total: int, n: nat): (r: int)
    requires n > 0
    ensures 2 * total - n < 2 * n * r <= 2 * total + n
  {
    var q := (2 * total + n) / (2 * n);
    assert 2 * n * q + (2 * total + n) % (2 * n) == 2 * total + n;
    q
  }

  /** The rounded mean of numbers between `lo` and `hi` is itself between them. */
  lemma RoundedMeanBounds(total: int, n: nat, lo: int, hi: int)
    requires n > 0 && n * lo <= total <= n * hi
    ensures lo <= RoundedMean(total, n) <= hi
  {
    var r, m := RoundedMean(total, n), 2 * n;
    assert m * lo == 2 * (n * lo) && m * hi == 2 * (n * hi);
    assert m * (r - lo + 1) == m * r - m * lo + m;
    assert m * (hi + 1 - r) == m * hi + m - m * r;
    SignOfProduct(m, r - lo + 1);
    SignOfProduct(m, hi + 1 - r);
  }

  lemma SignOfProduct(m: nat, x: int)
    ensures x <= 0 ==> m * x <= 0
  {
  }

  /** The statistics panel; energy is in tenths of a kWh. */
  datatype Stats = Stats(active: nat, total: nat, avgTemp: Option<int>, energyTenths: nat)

  /**
   * `updateStats`: active and total counts, the rounded mean temperature
   * of the active Climate Control devices (`None` for `'--'`), and the
   * energy estimate of 1.5 kWh per active device.
   */
  function ComputeStats(ds: seq<Device>): (s: Stats)
    ensures s.total == |ds| && s.active <= s.total
    ensures s.active == ActiveCount(ds)
    ensures s.energyTenths == 15 * s.active
    ensures s.avgTemp.None? <==> forall i :: 0 <= i < |ds| ==> !IsReading(ds[i])
    ensures s.avgTemp.Some? ==>
      var n := |ClimateReadings(ds)|; var total := Sum(ClimateReadings(ds));
      n > 0 && 2 * total - n < 2 * n * s.avgTemp.value <= 2 * total + n
  {
    var readings := ClimateReadings(ds);
    var active := ActiveCount(ds);
    Stats(active, |ds|, if |readings| > 0 then Some(RoundedMean(Sum(readings), |readings|)) else None, 15 * active)
  }

  /** The average temperature lies between the lowest and the highest reading. */
  lemma AvgTempWithinReadings(ds: seq<Device>, lo: int, hi: int)
    requires ClimateReadings(ds) != []
    requires forall x :: x in ClimateReadings(ds) ==> lo <= x <= hi
    ensures ComputeStats(ds).avgTemp.Some?
    ensures lo <= ComputeStats(ds).avgTemp.value <= hi
  {
    var readings := ClimateReadings(ds);
    assert forall i :: 0 <= i < |readings| ==> readings[i] in readings;
    SumBounds(readings, lo, hi);
    RoundedMeanBounds(Sum(readings), |readings|, lo, hi);
  }
}
