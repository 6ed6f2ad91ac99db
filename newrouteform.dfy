/** The quick route form of the admin panel (`src/components/admin/NewRouteForm.tsx`):
    a driver, a vehicle and an editable list of stops, inserted as one route.
    The insert is split at its `await`: `BeginCreate` builds the record and
    raises `loading`, `FinishCreate` takes the insert's error (if any). The
    random id and the creation time are parameters. */
module NewRouteForm {
  import opened Wrappers

  datatype FormStop = FormStop(name: string, address: string, notes: string)

  const BlankStop: FormStop := FormStop("", "", "")

  /** The field an edit of a stop targets. */
  datatype StopField = Name | Address | Notes

  function SetField(s: FormStop, key: StopField, value: string): FormStop {
    match key
    case Name => s.(name := value)
    case Address => s.(address := value)
    case Notes => s.(notes := value)
  }

  /** The record inserted into the routes table. */
  datatype NewRoute = NewRoute(id: string, driver: string, vehicle: string, start: string, stops: seq<FormStop>)

  class RouteForm {
    var driver: string
    var vehicle: string
    var stops: seq<FormStop>
    var loading: bool

    /** Empty driver and vehicle, one blank stop, not loading. */
    constructor ()
      ensures driver == "" && vehicle == "" && stops == [BlankStop] && !loading
    {
      driver, vehicle := "", "";
      stops := [BlankStop];
      loading := false;
    }

    /** `addStop`: one blank stop at the end. */
    method AddStop()
      modifies this`stops
      ensures |stops| == |old(stops)| + 1
      ensures stops[..|old(stops)|] == old(stops) && stops[|old(stops)|] == BlankStop
    {
      stops := stops + [BlankStop];
    }

    /** `updateStop`: field `key` of stop `i` takes `value`; every other stop
        and every other field stays; an index out of range changes nothing. */
    method UpdateStop(i: int, key: StopField, value: string)
      modifies this`stops
      ensures |stops| == |old(stops)|
      ensures forall j :: 0 <= j < |stops| && j != i ==> stops[j] == old(stops)[j]
      ensures 0 <= i < |stops| ==> stops[i] == SetField(old(stops)[i], key, value)
      ensures 0 <= i < |stops| && key != Name ==> stops[i].name == old(stops)[i].name
      ensures 0 <= i < |stops| && key != Address ==> stops[i].address == old(stops)[i].address
      ensures 0 <= i < |stops| && key != Notes ==> stops[i].notes == old(stops)[i].notes
    {
      stops := seq(|stops|, j requires 0 <= j < |stops| reads this =>
        if j == i then SetField(stops[j], key, value) else stops[j]);
    }

    /** The first half of `createRoute`: `loading` goes up and the record is
        built from the form exactly as it stands. */
    method BeginCreate(uuid: string, nowIso: string) returns (newRoute: NewRoute)
      modifies this`loading
      ensures loading
      ensures newRoute == NewRoute(uuid, driver, vehicle, nowIso, stops)
    {
      loading := true;
      newRoute := NewRoute(uuid, driver, vehicle, nowIso, stops);
    }

    /** The second half: `loading` goes down whatever the outcome. Without an
        error the route is reported as created and the form resets; with one
        the error text is shown and the form keeps its contents. */
    method FinishCreate(newRoute: NewRoute, error: Option<string>) returns (created: Option<NewRoute>, alertText: Option<string>)
      modifies this`loading, this`driver, this`vehicle, this`stops
      ensures !loading
      ensures error.None? ==> created == Some(newRoute) && alertText == None
      ensures error.None? ==> driver == "" && vehicle == "" && stops == [BlankStop]
      ensures error.Some? ==> created == None && alertText == Some("Error al crear ruta: " + error.value)
      ensures error.Some? ==> driver == old(driver) && vehicle == old(vehicle) && stops == old(stops)
    {
      loading := false;
      if error.Some? {
        return None, Some("Error al crear ruta: " + error.value);
      }
      created, alertText := Some(newRoute), None;
      driver, vehicle := "", "";
      stops := [BlankStop];
    }
  }
}
