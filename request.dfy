/** `Request`: the base request, whose one field is the AWS region endpoint,
    read lazily with a configuration fallback and cached; and the region
    lookup `RegionEndpoint.GetBySystemName`, modelled as membership in a set of
    known region names. A `SerializationInfo` is a map from names to string
    references. */
module Request {
  import opened Outcomes

  /** `RegionEndpoint.USEast1.SystemName`: the region used when none is set. */
  const DefaultRegion: string := "us-east-1"

  /** What `ISerializable.GetObjectData` writes and the serialisation
      constructor reads back. */
  type SerializationInfo = map<string, NStr>

  /** `info.GetString(name)`: a missing name is a `SerializationException`. */
  function GetString(info: SerializationInfo, name: string): (r: Result<NStr>)
    ensures r.Ok? <==> name in info
    ensures r.Ok? ==> r.value == info[name]
    ensures r.Err? ==> r.error == SerializationError
  {
    if name in info then Ok(info[name]) else Err(SerializationError)
  }

  /** `RegionEndpoint.GetBySystemName(name)`: the endpoint of a known region,
      identified here by its system name. */
  function GetBySystemName(name: NStr, known: set<string>): (r: Result<string>)
    ensures r.Ok? <==> name.Str? && name.s in known
    ensures r.Ok? ==> r.value == name.s
  {
    if name.Null? then Err(ArgumentNull)
    else if name.s !in known then Err(ArgumentError)
    else Ok(name.s)
  }

  /** What the `Region` getter returns for a stored endpoint and the region
      of the application configuration. */
  function RegionRead(stored: Option<string>, appConfig: Option<string>): (r: string)
    ensures stored.Some? ==> r == stored.value
    ensures stored.None? && appConfig.Some? ==> r == appConfig.value
    ensures stored.None? && appConfig.None? ==> r == DefaultRegion
  {
    if stored.Some? then stored.value
    else if appConfig.Some? then appConfig.value
    else DefaultRegion
  }

  /** Once a read has cached its result, later reads give the same region
      whatever the configuration says by then. */
  lemma RegionReadIsCached(stored: Option<string>, appConfig: Option<string>, laterConfig: Option<string>)
    ensures RegionRead(Some(RegionRead(stored, appConfig)), laterConfig) == RegionRead(stored, appConfig)
  {
  }

  /** What `GetObjectData` writes for a stored endpoint: its system name, or a
      `NullReferenceException` when no endpoint is stored. */
  function SerializeRegion(stored: Option<string>): (r: Result<SerializationInfo>)
    ensures r.Ok? <==> stored.Some?
    ensures r.Ok? ==> r.value.Keys == {"Region"} && r.value["Region"] == Str(stored.value)
    ensures r.Err? ==> r.error == NullReference
  {
    if stored.None? then Err(NullReference) else Ok(map["Region" := Str(stored.value)])
  }

  /** What the serialisation constructor stores for a `SerializationInfo`. */
  function DeserializeRegion(info: SerializationInfo, known: set<string>): (r: Result<string>)
    ensures r.Ok? <==> "Region" in info && info["Region"].Str? && info["Region"].s in known
    ensures r.Ok? ==> r.value == info["Region"].s
  {
    var name :- GetString(info, "Region");
    GetBySystemName(name, known)
  }

  /** The region survives `GetObjectData` followed by the serialisation constructor. */
  lemma RegionRoundTrip(stored: string, known: set<string>)
    requires stored in known
    ensures SerializeRegion(Some(stored)).Ok?
    ensures DeserializeRegion(SerializeRegion(Some(stored)).value, known) == Ok(stored)
  {
  }

  class Request {
    /** The region names `GetBySystemName` recognises. */
    const knownRegions: set<string>
    /** `_Region`: the endpoint, by its system name; `None` is null. */
    var region: Option<string>

    ghost predicate Valid()
      reads this
    {
      DefaultRegion in knownRegions && (region.Some? ==> region.value in knownRegions)
    }

    /** `Request()`: no region is stored. */
    constructor (knownRegions: set<string>)
      requires DefaultRegion in knownRegions
      ensures Valid() && this.knownRegions == knownRegions && region == None
    {
      this.knownRegions := knownRegions;
      region := None;
    }

    /** The serialisation constructor `Request(SerializationInfo, StreamingContext)`. */
    static method FromSerializationInfo(info: Option<SerializationInfo>, knownRegions: set<string>)
      returns (r: Result<Request>)
      requires DefaultRegion in knownRegions
      ensures info.None? ==> r == Err(ArgumentError)
      ensures info.Some? ==> (r.Ok? <==> DeserializeRegion(info.value, knownRegions).Ok?)
      ensures r.Ok? ==> fresh(r.value) && r.value.Valid() && r.value.knownRegions == knownRegions
      ensures r.Ok? ==> r.value.region == Some(DeserializeRegion(info.value, knownRegions).value)
    {
      if info.None? {
        return Err(ArgumentError);
      }
      var name := DeserializeRegion(info.value, knownRegions);
      if name.Err? {
        return Err(name.error);
      }
      var request := new Request(knownRegions);
      request.region := Some(name.value);
      r := Ok(request);
    }

    /** The `Region` getter: with no endpoint stored it takes the configured
        region, falling back to `us-east-1`, and caches the result. */
    method GetRegion(appConfig: Option<string>) returns (name: string)
      requires Valid()
      requires appConfig.Some? ==> appConfig.value in knownRegions
      modifies this
      ensures Valid()
      ensures name == RegionRead(old(region), appConfig)
      ensures region == Some(name)
    {
      if region == None {
        region := appConfig;
        if region == None {
          region := Some(DefaultRegion);
        }
      }
      name := region.value;
    }

    /** The `Region` setter: a null or empty value leaves the stored endpoint
        as it was; otherwise the named endpoint is looked up and stored. */
    method SetRegion(value: NStr) returns (r: Outcome)
      requires Valid()
      modifies this
      ensures Valid()
      ensures IsNullOrEmpty(value) ==> r == Pass && region == old(region)
      ensures !IsNullOrEmpty(value) ==> (r.Pass? <==> value.s in knownRegions)
      ensures !IsNullOrEmpty(value) && r.Pass? ==> region == Some(value.s)
      ensures r.Fail? ==> region == old(region)
    {
      if !IsNullOrEmpty(value) {
        var endpoint := GetBySystemName(value, knownRegions);
        if endpoint.Err? {
          return Fail(endpoint.error);
        }
        region := Some(endpoint.value);
      }
      r := Pass;
    }

    /** `GetObjectData`. */
    function GetObjectData(): (r: Result<SerializationInfo>)
      reads this
      ensures r == SerializeRegion(region)
    {
      SerializeRegion(region)
    }
  }
}
