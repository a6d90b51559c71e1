/**
 * Commute vocabulary: the transport type stored as an integer raw value,
 * the two commute errors, and the whole-minute travel time shown to users.
 */
module Commute {
  import opened Wrappers

  /** `CommuteTransportType`, in declaration order. */
  datatype TransportType = Automobile | Walking | Transit

  function RawValue(t: TransportType): (r: int)
    ensures 0 <= r <= 2
  {
    match t
    case Automobile => 0
    case Walking => 1
    case Transit => 2
  }

  /** `init(rawValue:)`. */
  function FromRaw(raw: int): (r: Option<TransportType>)
    ensures r.Some? <==> 0 <= raw <= 2
  {
    if raw == 0 then Some(Automobile)
    else if raw == 1 then Some(Walking)
    else if raw == 2 then Some(Transit)
    else None
  }

  /** `init(rawValue:)` and `rawValue` are inverse to each other. */
  lemma RawRoundTrip(t: TransportType, raw: int)
    ensures FromRaw(RawValue(t)) == Some(t)
    ensures FromRaw(raw).Some? ==> RawValue(FromRaw(raw).value) == raw
  {
  }

  /** `Identifiable.id`: the raw value. */
  function Identifier(t: TransportType): (id: int)
    ensures FromRaw(id) == Some(t)
  {
    RawValue(t)
  }

  /** `allCases`. */
  const AllCases: seq<TransportType> := [Automobile, Walking, Transit]

  /** Every case is listed once, at the position of its raw value. */
  lemma AllCasesInOrder(t: TransportType)
    ensures |AllCases| == 3
    ensures AllCases[RawValue(t)] == t
    ensures forall i :: 0 <= i < |AllCases| ==> RawValue(AllCases[i]) == i
  {
  }

  function Label(t: TransportType): string {
    match t
    case Automobile => "Driving"
    case Walking => "Walking"
    case Transit => "Transit"
  }

  function SystemImage(t: TransportType): string {
    match t
    case Automobile => "car.fill"
    case Walking => "figure.walk"
    case Transit => "tram.fill"
  }

  /** Different transport types have different labels and icons. */
  lemma PresentationInjective(a: TransportType, b: TransportType)
    requires a != b
    ensures Label(a) != Label(b)
    ensures SystemImage(a) != SystemImage(b)
  {
    assert Label(a)[0] != Label(b)[0];
    assert SystemImage(a)[0] != SystemImage(b)[0];
  }

  /**
   * What callers do with a stored raw value:
   * `CommuteTransportType(rawValue:) ?? .automobile`.
   */
  function OrAutomobile(raw: int): (t: TransportType)
    ensures 0 <= raw <= 2 ==> RawValue(t) == raw
    ensures !(0 <= raw <= 2) ==> t == Automobile
  {
    FromRaw(raw).GetOr(Automobile)
  }

  /** `CommuteError`. */
  datatype CommuteError = LocationPermissionDenied | NoRouteFound

  function ErrorDescription(e: CommuteError): (r: Option<string>)
    ensures r.Some? && |r.value| > 0
  {
    match e
    case LocationPermissionDenied => Some("Location access is required for commute reminders.")
    case NoRouteFound => Some("Could not calculate a route to the destination.")
  }

  /**
   * `Int(travelSeconds / 60)`: the conversion to `Int` truncates toward zero,
   * so the whole minutes never overstate the travel time.
   */
  function TravelMinutes(seconds: int): (m: int)
    ensures seconds >= 0 ==> 0 <= m && m * 60 <= seconds < m * 60 + 60
    ensures seconds < 0 ==> m <= 0 && m * 60 - 60 < seconds <= m * 60
  {
    if seconds >= 0 then seconds / 60 else -((-seconds) / 60)
  }
}
