/** The driver's route screen (`src/pages/Driver.jsx`): the stop list, the
    active stop, and the updates that mark the active stop delivered or attach
    a photo or a signature to it. The route fetch is not modelled; its result
    is the argument of `Load`. */
module Driver {
  import opened Wrappers

  /** The value of a stop's `id` field, or of the `active` slot: JSON `null`,
      absent (`undefined`), or a number. The route forms store stops without
      an `id`, so on their routes every stop's id is `Undefined`. Strict
      equality (`===`) on these values is datatype equality. */
  datatype StopId = Null | Undefined | Num(n: int)

  datatype DriverStop = DriverStop(
    id: StopId, name: string, address: string, delivered: bool,
    photo: Option<string>, sign: Option<string>)

  /** The fetched route record; `stops` is `None` when the field is missing. */
  datatype RouteRecord = RouteRecord(stops: Option<seq<DriverStop>>)

  /** The change made to the active stop. */
  datatype StopUpdate = MarkDone | SetPhoto(photo: string) | SetSign(sign: string)

  function Apply(s: DriverStop, u: StopUpdate): DriverStop {
    match u
    case MarkDone => s.(delivered := true)
    case SetPhoto(p) => s.(photo := Some(p))
    case SetSign(d) => s.(sign := Some(d))
  }

  /** `s.id === active`. */
  predicate IsActive(s: DriverStop, active: StopId) {
    s.id == active
  }

  /** The stop list after applying `u` to every stop whose id equals the active value. */
  function UpdateActive(stops: seq<DriverStop>, active: StopId, u: StopUpdate): (r: seq<DriverStop>)
    ensures |r| == |stops|
    ensures forall i :: 0 <= i < |stops| ==> r[i] == (if IsActive(stops[i], active) then Apply(stops[i], u) else stops[i])
  {
    seq(|stops|, i requires 0 <= i < |stops| => if IsActive(stops[i], active) then Apply(stops[i], u) else stops[i])
  }

  /** `current`: the first stop whose id equals the active value. */
  function Find(stops: seq<DriverStop>, active: StopId): (r: Option<nat>)
    ensures r.Some? ==> r.value < |stops| && IsActive(stops[r.value], active)
    ensures r.Some? ==> forall j :: 0 <= j < r.value ==> !IsActive(stops[j], active)
    ensures r.None? ==> forall j :: 0 <= j < |stops| ==> !IsActive(stops[j], active)
  {
    if |stops| == 0 then None
    else if IsActive(stops[0], active) then Some(0)
    else
      match Find(stops[1..], active)
      case None => None
      case Some(k) => Some(k + 1)
  }

  /** An update keeps ids, so the active stop is found at the same place. */
  lemma FindAfterUpdate(stops: seq<DriverStop>, active: StopId, u: StopUpdate)
    ensures Find(UpdateActive(stops, active, u), active) == Find(stops, active)
  {
    var r := UpdateActive(stops, active, u);
    assert forall i :: 0 <= i < |stops| ==> (IsActive(r[i], active) <==> IsActive(stops[i], active));
    match Find(r, active)
    case None =>
    case Some(k) =>
      match Find(stops, active)
      case None =>
      case Some(k') =>
        assert !(k < k') && !(k' < k);
  }

  /** Marking delivered twice is marking delivered once. */
  lemma MarkDeliveredIdempotent(stops: seq<DriverStop>, active: StopId)
    ensures UpdateActive(UpdateActive(stops, active, MarkDone), active, MarkDone) == UpdateActive(stops, active, MarkDone)
  {
  }

  /** On a route whose stops carry no id, the active value read from the first
      stop is `Undefined` as well: the first stop is current and every update
      applies to all stops. */
  lemma IdlessStopsAllActive(stops: seq<DriverStop>, u: StopUpdate)
    requires forall i :: 0 <= i < |stops| ==> stops[i].id == Undefined
    ensures |stops| > 0 ==> Find(stops, Undefined) == Some(0)
    ensures forall i :: 0 <= i < |stops| ==> UpdateActive(stops, Undefined, u)[i] == Apply(stops[i], u)
  {
  }

  /** With pairwise distinct ids, an update changes the current stop and no
      other. */
  lemma DistinctIdsTouchOne(stops: seq<DriverStop>, active: StopId, u: StopUpdate)
    requires forall i, j :: 0 <= i < j < |stops| ==> stops[i].id != stops[j].id
    requires Find(stops, active).Some?
    ensures forall i :: 0 <= i < |stops| ==>
      UpdateActive(stops, active, u)[i] == (if i == Find(stops, active).value then Apply(stops[i], u) else stops[i])
  {
    var k := Find(stops, active).value;
    forall i | 0 <= i < |stops| && i != k
      ensures !IsActive(stops[i], active)
    {
      if i < k {
        assert stops[i].id != stops[k].id;
      } else {
        assert stops[k].id != stops[i].id;
      }
    }
  }

  /** The screen state. `active` starts as `Null`; loading a route sets it to
      the first stop's id, which is `Undefined` when the route has no stops or
      its first stop has no id. */
  class DriverView {
    var stops: seq<DriverStop>
    var active: StopId

    constructor ()
      ensures stops == [] && active == Null
    {
      stops := [];
      active := Null;
    }

    /** `current`. */
    function Current(): (c: Option<DriverStop>)
      reads this
      ensures c.Some? ==> c.value in stops && IsActive(c.value, active)
      ensures c.Some? ==> Find(stops, active).Some? && c.value == stops[Find(stops, active).value]
      ensures c.None? ==> forall j :: 0 <= j < |stops| ==> !IsActive(stops[j], active)
    {
      match Find(stops, active)
      case None => None
      case Some(k) => Some(stops[k])
    }

    /** The "mark delivered" button is shown when there is a current stop that
        is not delivered yet: the first stop matching the active value decides,
        and without such a stop the page shows no button. */
    predicate CanMarkDelivered(): (c: bool)
      reads this
      ensures forall i ::
        (0 <= i < |stops| && IsActive(stops[i], active) && forall j :: 0 <= j < i ==> !IsActive(stops[j], active))
        ==> (c <==> !stops[i].delivered)
      ensures (forall i :: 0 <= i < |stops| ==> !IsActive(stops[i], active)) ==> !c
    {
      Current().Some? && !Current().value.delivered
    }

    /** A loaded route replaces the stops (a missing list is empty) and makes
        the first stop active; no route changes nothing. */
    method Load(data: Option<RouteRecord>)
      modifies this
      ensures data.None? ==> stops == old(stops) && active == old(active)
      ensures data.Some? ==> stops == data.value.stops.GetOr([])
      ensures data.Some? ==> active == (if data.value.stops.Some? && |data.value.stops.value| > 0
                                        then data.value.stops.value[0].id else Undefined)
      ensures data.Some? && |stops| > 0 ==> Current() == Some(stops[0])
    {
      if data.Some? {
        stops := data.value.stops.GetOr([]);
        active := if data.value.stops.Some? && |data.value.stops.value| > 0
                  then data.value.stops.value[0].id else Undefined;
      }
    }

    /** Clicking a stop makes it active. */
    method Select(id: StopId)
      modifies this`active
      ensures active == id
    {
      active := id;
    }

    /** `markDelivered`: every stop matching the active value becomes delivered, the
        others stay; afterwards the button is no longer offered. */
    method MarkDelivered()
      modifies this`stops
      ensures stops == UpdateActive(old(stops), active, MarkDone)
      ensures !CanMarkDelivered()
      ensures old(Current()).Some? ==> Current() == Some(old(Current()).value.(delivered := true))
    {
      FindAfterUpdate(stops, active, MarkDone);
      stops := UpdateActive(stops, active, MarkDone);
    }

    /** `savePhoto`: the stops matching the active value get the placeholder photo. */
    method SavePhoto()
      modifies this`stops
      ensures stops == UpdateActive(old(stops), active, SetPhoto("mock-photo"))
      ensures old(Current()).Some? ==> Current() == Some(old(Current()).value.(photo := Some("mock-photo")))
    {
      FindAfterUpdate(stops, active, SetPhoto("mock-photo"));
      stops := UpdateActive(stops, active, SetPhoto("mock-photo"));
    }

    /** `saveSign`: the stops matching the active value get the signature image. */
    method SaveSign(data: string)
      modifies this`stops
      ensures stops == UpdateActive(old(stops), active, SetSign(data))
      ensures old(Current()).Some? ==> Current() == Some(old(Current()).value.(sign := Some(data)))
    {
      FindAfterUpdate(stops, active, SetSign(data));
      stops := UpdateActive(stops, active, SetSign(data));
    }
  }
}
