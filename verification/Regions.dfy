/** Region allow-list checks (src/security/regions.ts). */
module Regions {
  import opened Wrappers
  import opened JsText

  datatype RegionError = EmptyAllowList | NotAllowed(region: Text)

  function ValidateRegion(region: Text, allowed: seq<Text>): Option<RegionError> {
    if allowed == [] then Some(EmptyAllowList)
    else if region !in allowed then Some(NotAllowed(region))
    else None
  }

  /** The first requested region outside the allow list. */
  function FirstOutside(requested: seq<Text>, allowed: seq<Text>): (r: Option<Text>)
    ensures r.None? <==> forall x :: x in requested ==> x in allowed
    ensures r.Some? ==> r.value in requested && r.value !in allowed
  {
    if requested == [] then None
    else if requested[0] !in allowed then Some(requested[0])
    else FirstOutside(requested[1..], allowed)
  }

  function ResolveRegions(requested: Option<seq<Text>>, allowed: seq<Text>): (r: Result<seq<Text>, RegionError>)
    ensures r.Success? ==> r.value != [] && forall x :: x in r.value ==> x in allowed
  {
    if allowed == [] then Failure(EmptyAllowList)
    else if requested.None? || requested.value == [] then Success(allowed)
    else
      var outside := FirstOutside(requested.value, allowed);
      if outside.Some? then Failure(NotAllowed(outside.value)) else Success(requested.value)
  }
}
