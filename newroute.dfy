/** The "new route" page (`src/pages/NewRoute.tsx`): the editable list of
    unloading points and the composition of the stop list sent to the server
    (the load point first, then every unloading point that holds some data).
    `toISOString` of a date-time input is the parameter `iso`; the creation
    time is the parameter `nowIso`. */
module NewRoute {
  import opened Wrappers
  import opened Seqs
  import opened Text

  /** A package count field: empty, or a number. */
  datatype Packages = Blank | Count(n: int)

  /** JavaScript truthiness of a package field: "" and 0 are both falsy. */
  predicate PackagesTruthy(p: Packages) {
    p.Count? && p.n != 0
  }

  /** The text of `${packages || 0}`. */
  function PackagesText(p: Packages): (r: string)
    ensures !PackagesTruthy(p) ==> r == "0"
    ensures PackagesTruthy(p) ==> r == IntToString(p.n)
  {
    if PackagesTruthy(p) then IntToString(p.n) else "0"
  }

  /** The package input handler: an empty input stays empty, a number is
      raised to at least 0. `input` is `None` for an empty input. */
  function ClampPackages(input: Option<int>): (r: Packages)
    ensures r == Blank <==> input == None
    ensures r.Count? ==> r.n >= 0
    ensures r.Count? ==> (r.n == input.value || (input.value < 0 && r.n == 0))
  {
    match input
    case None => Blank
    case Some(v) => Count(if v < 0 then 0 else v)
  }

  /** A count of at least zero passes the input handler unchanged. */
  lemma ClampKeepsNonNegative(v: int)
    requires v >= 0
    ensures ClampPackages(Some(v)) == Count(v)
  {
  }

  datatype UnloadingPoint = UnloadingPoint(address: string, packages: Packages, date: string)

  const BlankPoint: UnloadingPoint := UnloadingPoint("", Blank, "")

  /** A point is kept when its address, packages or date is truthy. */
  predicate HasData(u: UnloadingPoint): (h: bool)
    ensures u == BlankPoint ==> !h
    ensures |u.address| > 0 || |u.date| > 0 ==> h
    ensures u.address == "" && u.date == "" ==> (h <==> u.packages.Count? && u.packages.n != 0)
  {
    |u.address| > 0 || PackagesTruthy(u.packages) || |u.date| > 0
  }

  /** A change to one field of a point. */
  datatype UnloadEdit = SetAddress(address: string) | SetPackages(packages: Packages) | SetDate(date: string)

  function ApplyEdit(u: UnloadingPoint, e: UnloadEdit): UnloadingPoint {
    match e
    case SetAddress(a) => u.(address := a)
    case SetPackages(p) => u.(packages := p)
    case SetDate(d) => u.(date := d)
  }

  /** `addUnload`: one blank point at the end. */
  function AddUnload(us: seq<UnloadingPoint>): (r: seq<UnloadingPoint>)
    ensures |r| == |us| + 1 && r[..|us|] == us && r[|us|] == BlankPoint
  {
    us + [BlankPoint]
  }

  /** `updateUnload`: the point at `i` gets the edit, every other point stays;
      an index out of range changes nothing. */
  function UpdateUnload(us: seq<UnloadingPoint>, i: int, e: UnloadEdit): (r: seq<UnloadingPoint>)
    ensures |r| == |us|
    ensures forall j :: 0 <= j < |us| && j != i ==> r[j] == us[j]
    ensures 0 <= i < |us| ==> r[i] == ApplyEdit(us[i], e)
  {
    seq(|us|, j requires 0 <= j < |us| => if j == i then ApplyEdit(us[j], e) else us[j])
  }

  /** An edit touches only its own field of the point. */
  lemma EditTouchesOneField(u: UnloadingPoint, e: UnloadEdit)
    ensures e.SetAddress? ==> ApplyEdit(u, e).packages == u.packages && ApplyEdit(u, e).date == u.date
    ensures e.SetPackages? ==> ApplyEdit(u, e).address == u.address && ApplyEdit(u, e).date == u.date
    ensures e.SetDate? ==> ApplyEdit(u, e).address == u.address && ApplyEdit(u, e).packages == u.packages
  {
  }

  /** `removeUnload`: the points whose index is not `i`, in order. */
  function RemoveUnload(us: seq<UnloadingPoint>, i: int): (r: seq<UnloadingPoint>)
    ensures 0 <= i < |us| ==> |r| == |us| - 1
    ensures !(0 <= i < |us|) ==> r == us
    ensures forall j :: 0 <= j < i && j < |r| ==> r[j] == us[j]
    ensures forall j :: 0 <= i <= j < |r| ==> r[j] == us[j + 1]
  {
    if us == [] then []
    else if i == 0 then us[1..]
    else [us[0]] + RemoveUnload(us[1..], i - 1)
  }

  /** A stop of the route request. */
  datatype Stop = Stop(name: string, address: string, notes: string, eta: Option<string>)

  /** What the page holds when "create" is pressed. */
  datatype Draft = Draft(
    companyName: string, companyCif: string, driver: string, vehicle: string,
    loadAddress: string, loadPackages: Packages, loadDate: string,
    unloads: seq<UnloadingPoint>)

  /** The request body. */
  datatype RouteBody = RouteBody(driver: string, vehicle: string, start: string, stops: seq<Stop>)

  function OrDefault(s: string, default: string): string {
    if |s| > 0 then s else default
  }

  function EtaOf(date: string, iso: string -> string): Option<string> {
    if |date| > 0 then Some(iso(date)) else None
  }

  /** The load point's stop. */
  function LoadStop(d: Draft, iso: string -> string): (s: Stop)
    ensures |d.loadAddress| > 0 ==> s.address == d.loadAddress
    ensures |d.loadAddress| == 0 ==> s.address == "(sin dirección)"
    ensures s.eta.None? <==> |d.loadDate| == 0
  {
    Stop("Punto de Carga (" + OrDefault(d.companyName, "Empresa") + ")",
         OrDefault(d.loadAddress, "(sin dirección)"),
         "CIF: " + OrDefault(d.companyCif, "—") + " | Bultos: " + PackagesText(d.loadPackages),
         EtaOf(d.loadDate, iso))
  }

  /** The stop of the unloading point at index `idx`, named by its 1-based
      position in the whole list. */
  function UnloadStop(u: UnloadingPoint, idx: nat, iso: string -> string): (s: Stop)
    ensures |s.name| > 9 && s.name[..9] == "Descarga "
    ensures |u.address| > 0 ==> s.address == u.address
    ensures |u.address| == 0 ==> s.address == "(sin dirección)"
    ensures s.eta.None? <==> |u.date| == 0
  {
    Stop("Descarga " + NatToString(idx + 1),
         OrDefault(u.address, "(sin dirección)"),
         "Bultos descargados: " + PackagesText(u.packages),
         EtaOf(u.date, iso))
  }

  /** The stops of the points that hold data, in list order. */
  function UnloadStops(us: seq<UnloadingPoint>, iso: string -> string): (r: seq<Stop>)
    ensures |r| <= |us|
  {
    if us == [] then []
    else
      var k := |us| - 1;
      UnloadStops(us[..k], iso) + (if HasData(us[k]) then [UnloadStop(us[k], k, iso)] else [])
  }

  /** The indices of the points that hold data, in increasing order. */
  function KeptIndices(us: seq<UnloadingPoint>): (r: seq<nat>)
    ensures |r| <= |us|
    ensures forall j :: 0 <= j < |r| ==> r[j] < |us|
  {
    if us == [] then []
    else
      var k := |us| - 1;
      KeptIndices(us[..k]) + (if HasData(us[k]) then [k] else [])
  }

  /** The stop list of the request: the load point, then the kept points. */
  function ComposedStops(d: Draft, iso: string -> string): (r: seq<Stop>)
    ensures 1 <= |r| <= 1 + |d.unloads|
    ensures r[0] == LoadStop(d, iso)
  {
    [LoadStop(d, iso)] + UnloadStops(d.unloads, iso)
  }

  /** `createRoute`: without a driver or a vehicle nothing is sent; otherwise
      the stops are composed in one pass over the unloading points and the
      request carries the driver, the vehicle, the creation time and them. */
  method CreateRoute(d: Draft, nowIso: string, iso: string -> string) returns (body: Option<RouteBody>)
    ensures body.None? <==> |d.driver| == 0 || |d.vehicle| == 0
    ensures body.Some? ==> body.value == RouteBody(d.driver, d.vehicle, nowIso, ComposedStops(d, iso))
  {
    if |d.driver| == 0 || |d.vehicle| == 0 {
      return None;
    }
    var composedStops := [LoadStop(d, iso)];
    for idx := 0 to |d.unloads|
      invariant composedStops == [LoadStop(d, iso)] + UnloadStops(d.unloads[..idx], iso)
    {
      var u := d.unloads[idx];
      assert d.unloads[..idx + 1][..idx] == d.unloads[..idx];
      if HasData(u) {
        composedStops := composedStops + [UnloadStop(u, idx, iso)];
      }
    }
    assert d.unloads[..|d.unloads|] == d.unloads;
    body := Some(RouteBody(d.driver, d.vehicle, nowIso, composedStops));
  }

  /** The kept indices are in range, strictly increasing, and are exactly the
      indices of points holding data. */
  lemma {:induction false} KeptIndicesShape(us: seq<UnloadingPoint>)
    ensures forall j :: 0 <= j < |KeptIndices(us)| ==> KeptIndices(us)[j] < |us|
    ensures forall j, l :: 0 <= j < l < |KeptIndices(us)| ==> KeptIndices(us)[j] < KeptIndices(us)[l]
    ensures forall i :: 0 <= i < |us| ==> (HasData(us[i]) <==> i in KeptIndices(us))
  {
    if us != [] {
      var k := |us| - 1;
      var init := us[..k];
      KeptIndicesShape(init);
      assert forall i :: 0 <= i < k ==> init[i] == us[i];
    }
  }

  /** Each kept point yields its stop, named after its original position. */
  lemma {:induction false} UnloadStopsAt(us: seq<UnloadingPoint>, iso: string -> string)
    ensures |UnloadStops(us, iso)| == |KeptIndices(us)|
    ensures forall j :: 0 <= j < |KeptIndices(us)| ==>
      KeptIndices(us)[j] < |us| &&
      UnloadStops(us, iso)[j] == UnloadStop(us[KeptIndices(us)[j]], KeptIndices(us)[j], iso)
  {
    if us != [] {
      var k := |us| - 1;
      var init := us[..k];
      UnloadStopsAt(init, iso);
      var ki, si := KeptIndices(init), UnloadStops(init, iso);
      assert KeptIndices(us) == ki + (if HasData(us[k]) then [k] else []);
      assert UnloadStops(us, iso) == si + (if HasData(us[k]) then [UnloadStop(us[k], k, iso)] else []);
      forall j | 0 <= j < |ki|
        ensures UnloadStops(us, iso)[j] == UnloadStop(us[KeptIndices(us)[j]], KeptIndices(us)[j], iso)
      {
        assert KeptIndices(us)[j] == ki[j] && UnloadStops(us, iso)[j] == si[j];
        assert init[ki[j]] == us[ki[j]];
      }
    }
  }

  /** The number of kept points is the number of points holding data. */
  lemma {:induction false} KeptCount(us: seq<UnloadingPoint>)
    ensures |KeptIndices(us)| == |Filter(us, HasData)|
  {
    if us != [] {
      var k := |us| - 1;
      KeptCount(us[..k]);
      assert us == us[..k] + [us[k]];
      FilterSnoc(us[..k], us[k], HasData);
    }
  }

  /** The request's stop list starts with the load point, which has no
      arrival time exactly when its date field is empty, and has one more stop
      than there are points holding data. */
  lemma ComposedStopsShape(d: Draft, iso: string -> string)
    ensures ComposedStops(d, iso)[0] == LoadStop(d, iso)
    ensures ComposedStops(d, iso)[0].name == "Punto de Carga (" + OrDefault(d.companyName, "Empresa") + ")"
    ensures ComposedStops(d, iso)[0].eta.None? <==> |d.loadDate| == 0
    ensures |ComposedStops(d, iso)| == 1 + |Filter(d.unloads, HasData)|
  {
    UnloadStopsAt(d.unloads, iso);
    KeptCount(d.unloads);
  }

  /** Stop `j + 1` of the request comes from the `j`-th point holding data: it
      is named after that point's 1-based position in the whole list, has no
      arrival time exactly when the point's date is empty, and its notes carry
      the package count or 0. */
  lemma ComposedStopAt(d: Draft, iso: string -> string, j: int)
    requires 0 <= j < |KeptIndices(d.unloads)|
    ensures |ComposedStops(d, iso)| == 1 + |KeptIndices(d.unloads)|
    ensures KeptIndices(d.unloads)[j] < |d.unloads|
    ensures var i := KeptIndices(d.unloads)[j];
      && HasData(d.unloads[i])
      && ComposedStops(d, iso)[j + 1].name == "Descarga " + NatToString(i + 1)
      && (ComposedStops(d, iso)[j + 1].eta.None? <==> |d.unloads[i].date| == 0)
      && ComposedStops(d, iso)[j + 1].notes == "Bultos descargados: " + PackagesText(d.unloads[i].packages)
  {
    KeptStopAt(d.unloads, iso, j);
    var i := KeptIndices(d.unloads)[j];
    var rest := UnloadStops(d.unloads, iso);
    assert ComposedStops(d, iso) == [LoadStop(d, iso)] + rest;
    assert ComposedStops(d, iso)[j + 1] == rest[j];
  }

  /** The `j`-th kept point, and the stop it yields. */
  lemma KeptStopAt(us: seq<UnloadingPoint>, iso: string -> string, j: int)
    requires 0 <= j < |KeptIndices(us)|
    ensures |UnloadStops(us, iso)| == |KeptIndices(us)|
    ensures KeptIndices(us)[j] < |us| && HasData(us[KeptIndices(us)[j]])
    ensures UnloadStops(us, iso)[j] == UnloadStop(us[KeptIndices(us)[j]], KeptIndices(us)[j], iso)
  {
    UnloadStopsAt(us, iso);
    KeptIndicesShape(us);
    assert KeptIndices(us)[j] in KeptIndices(us);
  }

  /** Blank points add no stops: a list of blank points yields the load point alone. */
  lemma {:induction false} BlankPointsAddNothing(us: seq<UnloadingPoint>, iso: string -> string)
    requires forall i :: 0 <= i < |us| ==> us[i] == BlankPoint
    ensures UnloadStops(us, iso) == []
  {
    if us != [] {
      BlankPointsAddNothing(us[..|us| - 1], iso);
    }
  }
}
