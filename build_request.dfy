/** `BuildRequest`: the build/package/upload request. Its setters validate
    their input and mutate private fields; the region getter defaults to
    `us-east-1` and caches it; `GetObjectData` and the serialisation
    constructor carry six of its fields through a `SerializationInfo`. The
    region field inherited from `Request` is never touched by this class and is
    not modelled here. */
module BuildRequest {
  import opened Outcomes
  import opened Text
  import Assert
  import Guid
  import Request

  /** The six serialised fields, as stored: `WhatIf` is not among them. */
  datatype Fields = Fields(
    requestId: Guid.Guid,
    sourcePath: NStr,
    bucketName: NStr,
    bucketRegion: Option<string>,
    credentialProfile: NStr,
    packageZipName: NStr)

  /** The value the `SourcePath` setter stores: null or empty input is rejected;
      a leading quote removes the first and the last character; after that a
      remaining trailing quote removes one more. A lone quote makes
      `Substring(1, -1)` throw. */
  function SourcePathValue(value: NStr): (r: Result<string>)
    ensures IsNullOrEmpty(value) ==> r == Err(ArgumentError)
    ensures value == Str("\"") ==> r == Err(ArgumentOutOfRange)
    ensures r.Ok? <==> value.Str? && value.s != [] && value.s != "\""
    ensures r.Ok? ==> |r.value| <= |value.s| && r.value == StripTrailingQuote(StripLeadingPair(value.s))
  {
    var given := Assert.IsNotNullOrEmptyString(value);
    if given.Fail? then Err(given.error)
    else
      var v := value.s;
      if Text.StartsWith(v, "\"", Ordinal) && |v| < 2 then Err(ArgumentOutOfRange)
      else Ok(StripTrailingQuote(StripLeadingPair(v)))
  }

  /** `value.Substring(1, value.Length - 2)` when `value` starts with a quote. */
  function StripLeadingPair(v: string): (r: string)
    requires Text.StartsWith(v, "\"", Ordinal) ==> |v| >= 2
    ensures Text.StartsWith(v, "\"", Ordinal) ==> r == v[1..|v| - 1]
    ensures !Text.StartsWith(v, "\"", Ordinal) ==> r == v
  {
    if Text.StartsWith(v, "\"", Ordinal) then v[1..|v| - 1] else v
  }

  /** `value.Substring(0, value.Length - 1)` when `value` ends with a quote. */
  function StripTrailingQuote(v: string): (r: string)
    ensures Text.EndsWith(v, "\"", Ordinal) ==> r == v[..|v| - 1]
    ensures !Text.EndsWith(v, "\"", Ordinal) ==> r == v
  {
    if Text.EndsWith(v, "\"", Ordinal) then v[..|v| - 1] else v
  }

  /** A path with no quote at either end is stored unchanged. */
  lemma UnquotedSourcePathUnchanged(v: string)
    requires v != [] && v[0] != '"' && v[|v| - 1] != '"'
    ensures SourcePathValue(Str(v)) == Ok(v)
  {
    assert !Text.StartsWith(v, "\"", Ordinal) by { assert v[..1][0] == v[0]; }
    assert !Text.EndsWith(v, "\"", Ordinal) by { assert v[|v| - 1..][0] == v[|v| - 1]; }
  }

  /** A path wrapped in one pair of quotes is stored without them. */
  lemma QuotedSourcePathUnwrapped(w: string)
    requires w == [] || w[|w| - 1] != '"'
    ensures SourcePathValue(Str("\"" + w + "\"")) == Ok(w)
  {
    var v := "\"" + w + "\"";
    assert v[..1] == "\"";
    assert v[1..|v| - 1] == w;
    if w != [] {
      assert !Text.EndsWith(w, "\"", Ordinal) by { assert w[|w| - 1..][0] == w[|w| - 1]; }
    }
  }

  /** The trailing-quote rule on its own: `C:\out"` (what a shell leaves of
      `"C:\out\"`) is stored as `C:\out`. */
  lemma TrailingQuoteAlone()
    ensures SourcePathValue(Str("C:\\out\"")) == Ok("C:\\out")
  {
    var v := "C:\\out\"";
    assert !Text.StartsWith(v, "\"", Ordinal) by { assert v[..1][0] == 'C'; }
    assert v[|v| - 1..] == "\"";
    assert v[..|v| - 1] == "C:\\out";
  }

  /** Edge cases of the setter as written: two quote characters are stored as
      the empty string, although the setter rejects empty input; a leading
      quote without a closing one costs the last real character. */
  lemma SourcePathEdgeCases()
    ensures SourcePathValue(Str("\"\"")) == Ok("")
    ensures SourcePathValue(Str("\"abc")) == Ok("ab")
  {
    var v := "\"abc";
    assert v[..1] == "\"";
    assert v[1..|v| - 1] == "ab";
    assert !Text.EndsWith("ab", "\"", Ordinal) by { assert "ab"[1..][0] == 'b'; }
    var q := "\"\"";
    assert q[..1] == "\"";
    assert q[1..|q| - 1] == "";
  }

  /** The value the `PackageZipName` setter stores: non-empty and ending in
      ".zip", compared case-insensitively (the default of `Assert.EndsWith`). */
  function PackageZipNameValue(value: NStr): (r: Result<string>)
    ensures r.Ok? <==> value.Str? && value.s != [] && Text.EndsWith(value.s, ".zip", OrdinalIgnoreCase)
    ensures r.Ok? ==> r.value == value.s
    ensures r.Err? ==> r.error == ArgumentError
  {
    var given := Assert.IsNotNullOrEmptyString(value);
    if given.Fail? then Err(given.error)
    else
      var suffix := Assert.EndsWith(value, Str(".zip"));
      if suffix.Fail? then Err(suffix.error) else Ok(value.s)
  }

  /** A zip name without the ".zip" suffix is refused. */
  lemma ZipNameWithoutSuffixRejected(value: string)
    requires !Text.EndsWith(value, ".zip", OrdinalIgnoreCase)
    ensures PackageZipNameValue(Str(value)).Err?
  {
  }

  /** What `GetObjectData` writes: the GUID's text and five fields; an unset
      region is read through the null field and throws. */
  function Serialize(f: Fields): (r: Result<Request.SerializationInfo>)
    ensures r.Ok? <==> f.bucketRegion.Some?
    ensures r.Err? ==> r.error == NullReference
    ensures r.Ok? ==> r.value.Keys == {"RequestId", "SourcePath", "S3BucketName", "S3BucketRegion",
                                       "AWSCredentialProfile", "PackageZipName"}
  {
    if f.bucketRegion.None? then Err(NullReference)
    else Ok(map[
      "RequestId" := Str(Guid.ToString(f.requestId)),
      "SourcePath" := f.sourcePath,
      "S3BucketName" := f.bucketName,
      "S3BucketRegion" := Str(f.bucketRegion.value),
      "AWSCredentialProfile" := f.credentialProfile,
      "PackageZipName" := f.packageZipName])
  }

  /** What the serialisation constructor stores: each name must be present;
      the GUID must parse and the region must be known; the string fields are
      assigned as read, with none of the setters' checks. */
  function Deserialize(info: Request.SerializationInfo, known: set<string>): (r: Result<Fields>)
    ensures r.Ok? ==> {"RequestId", "SourcePath", "S3BucketName", "S3BucketRegion",
                       "AWSCredentialProfile", "PackageZipName"} <= info.Keys
    ensures r.Ok? ==> r.value.sourcePath == info["SourcePath"] && r.value.bucketName == info["S3BucketName"]
                      && r.value.credentialProfile == info["AWSCredentialProfile"]
                      && r.value.packageZipName == info["PackageZipName"]
    ensures r.Ok? <==> {"RequestId", "SourcePath", "S3BucketName", "S3BucketRegion",
                        "AWSCredentialProfile", "PackageZipName"} <= info.Keys
                       && Guid.Parse(info["RequestId"]).Ok?
                       && info["S3BucketRegion"].Str? && info["S3BucketRegion"].s in known
    ensures r.Ok? ==> Guid.Parse(info["RequestId"]) == Ok(r.value.requestId)
    ensures r.Ok? ==> r.value.bucketRegion == Some(info["S3BucketRegion"].s) && r.value.bucketRegion.value in known
  {
    var idText :- Request.GetString(info, "RequestId");
    var id :- Guid.Parse(idText);
    var sourcePath :- Request.GetString(info, "SourcePath");
    var bucketName :- Request.GetString(info, "S3BucketName");
    var regionName :- Request.GetString(info, "S3BucketRegion");
    var region :- Request.GetBySystemName(regionName, known);
    var profile :- Request.GetString(info, "AWSCredentialProfile");
    var zipName :- Request.GetString(info, "PackageZipName");
    Ok(Fields(id, sourcePath, bucketName, Some(region), profile, zipName))
  }

  /** `GetObjectData` followed by the serialisation constructor preserves all
      six serialised fields. */
  lemma {:induction false} SerializationRoundTrip(f: Fields, known: set<string>)
    requires f.bucketRegion.Some? && f.bucketRegion.value in known
    ensures Serialize(f).Ok? && Deserialize(Serialize(f).value, known) == Ok(f)
  {
    Guid.ParseToString(f.requestId);
  }

  /** The constructor bypasses the setters: a request whose zip name lacks the
      ".zip" suffix and whose source path is empty still deserialises. */
  lemma DeserializeBypassesSetterChecks(f: Fields, known: set<string>)
    requires f.bucketRegion.Some? && f.bucketRegion.value in known
    requires f.sourcePath == Str("") && f.packageZipName == Str("package.tar")
    ensures Deserialize(Serialize(f).value, known).Ok?
    ensures SourcePathValue(f.sourcePath).Err? && PackageZipNameValue(f.packageZipName).Err?
  {
    SerializationRoundTrip(f, known);
    var z := "package.tar";
    assert !Text.EndsWith(z, ".zip", OrdinalIgnoreCase) by {
      assert z[|z| - 4..][1] == 't';
    }
  }

  class BuildRequest {
    const knownRegions: set<string>
    /** `_RequestId`: drawn once by the constructor; there is no setter. */
    const requestId: Guid.Guid
    var sourcePath: NStr
    var bucketName: NStr
    /** `_S3BucketRegion`: the endpoint by its system name; `None` is null. */
    var bucketRegion: Option<string>
    var credentialProfile: NStr
    var packageZipName: NStr
    /** `WhatIf`: a plain auto-property, not serialised. */
    var whatIf: bool

    ghost predicate Valid()
      reads this
    {
      Request.DefaultRegion in knownRegions && (bucketRegion.Some? ==> bucketRegion.value in knownRegions)
    }

    function GetFields(): (f: Fields)
      reads this
      ensures f.requestId == requestId && f.bucketRegion == bucketRegion
    {
      Fields(requestId, sourcePath, bucketName, bucketRegion, credentialProfile, packageZipName)
    }

    /** `BuildRequest()`: `id` is the value of `Guid.NewGuid()`. */
    constructor (id: Guid.Guid, knownRegions: set<string>)
      requires Request.DefaultRegion in knownRegions
      ensures Valid() && requestId == id && this.knownRegions == knownRegions
      ensures GetFields() == Fields(id, Null, Null, None, Null, Null) && !whatIf
    {
      this.knownRegions := knownRegions;
      requestId := id;
      sourcePath, bucketName, bucketRegion := Null, Null, None;
      credentialProfile, packageZipName := Null, Null;
      whatIf := false;
    }

    /** The serialisation constructor: fields assigned as read, `WhatIf` false. */
    constructor FromFields(f: Fields, knownRegions: set<string>)
      requires Request.DefaultRegion in knownRegions
      requires f.bucketRegion.Some? ==> f.bucketRegion.value in knownRegions
      ensures Valid() && GetFields() == f && !whatIf && this.knownRegions == knownRegions
    {
      this.knownRegions := knownRegions;
      requestId := f.requestId;
      sourcePath, bucketName, bucketRegion := f.sourcePath, f.bucketName, f.bucketRegion;
      credentialProfile, packageZipName := f.credentialProfile, f.packageZipName;
      whatIf := false;
    }

    /** `BuildRequest(SerializationInfo, StreamingContext)`: a null info is
        rejected; otherwise the fields are those `Deserialize` reads. */
    static method FromSerializationInfo(info: Option<Request.SerializationInfo>, knownRegions: set<string>)
      returns (r: Result<BuildRequest>)
      requires Request.DefaultRegion in knownRegions
      ensures info.None? ==> r == Err(ArgumentError)
      ensures info.Some? ==> (r.Ok? <==> Deserialize(info.value, knownRegions).Ok?)
      ensures r.Ok? ==> fresh(r.value) && r.value.Valid() && !r.value.whatIf
      ensures r.Ok? ==> r.value.GetFields() == Deserialize(info.value, knownRegions).value
    {
      if info.None? {
        return Err(ArgumentError);
      }
      var f := Deserialize(info.value, knownRegions);
      if f.Err? {
        return Err(f.error);
      }
      var request := new BuildRequest.FromFields(f.value, knownRegions);
      r := Ok(request);
    }

    /** The five-argument constructor: the default constructor followed by the
        five setters, in the order the source calls them; the first one that
        throws ends construction. */
    static method Create(id: Guid.Guid, knownRegions: set<string>, sourcePath: NStr, bucketName: NStr,
                         bucketRegion: NStr, credentialProfile: NStr, packageZipName: NStr)
      returns (r: Result<BuildRequest>)
      requires Request.DefaultRegion in knownRegions
      ensures r.Ok? <==> SourcePathValue(sourcePath).Ok? && !IsNullOrEmpty(bucketName)
                          && !IsNullOrEmpty(bucketRegion) && bucketRegion.s in knownRegions
                          && !IsNullOrEmpty(credentialProfile) && PackageZipNameValue(packageZipName).Ok?
      ensures r.Ok? ==> fresh(r.value) && r.value.Valid() && !r.value.whatIf && r.value.GetFields() ==
                        Fields(id, Str(SourcePathValue(sourcePath).value), bucketName, Some(bucketRegion.s),
                               credentialProfile, packageZipName)
    {
      var request := new BuildRequest(id, knownRegions);
      var o := request.SetSourcePath(sourcePath);
      if o.Fail? { return Err(o.error); }
      o := request.SetS3BucketName(bucketName);
      if o.Fail? { return Err(o.error); }
      o := request.SetS3BucketRegion(bucketRegion);
      if o.Fail? { return Err(o.error); }
      o := request.SetAWSCredentialProfile(credentialProfile);
      if o.Fail? { return Err(o.error); }
      o := request.SetPackageZipName(packageZipName);
      if o.Fail? { return Err(o.error); }
      r := Ok(request);
    }

    /** The `SourcePath` setter. */
    method SetSourcePath(value: NStr) returns (r: Outcome)
      requires Valid()
      modifies this`sourcePath
      ensures Valid()
      ensures r.Pass? <==> SourcePathValue(value).Ok?
      ensures r.Pass? ==> sourcePath == Str(SourcePathValue(value).value)
      ensures r.Fail? ==> sourcePath == old(sourcePath)
    {
      var checked := Assert.IsNotNullOrEmptyString(value);
      if checked.Fail? {
        return checked;
      }
      var v := value.s;
      if Text.StartsWith(v, "\"", Ordinal) {
        if |v| < 2 {
          return Fail(ArgumentOutOfRange);
        }
        v := v[1..|v| - 1];
      }
      if Text.EndsWith(v, "\"", Ordinal) {
        v := v[..|v| - 1];
      }
      sourcePath := Str(v);
      r := Pass;
    }

    /** The `S3BucketName` setter. */
    method SetS3BucketName(value: NStr) returns (r: Outcome)
      requires Valid()
      modifies this`bucketName
      ensures Valid()
      ensures r.Pass? <==> !IsNullOrEmpty(value)
      ensures bucketName == if r.Pass? then value else old(bucketName)
    {
      r := Assert.IsNotNullOrEmptyString(value);
      if r.Pass? {
        bucketName := value;
      }
    }

    /** The `S3BucketRegion` getter: an unset region becomes `us-east-1` and is
        cached in the field. */
    method GetS3BucketRegion() returns (name: string)
      requires Valid()
      modifies this`bucketRegion
      ensures Valid()
      ensures name == Request.RegionRead(old(bucketRegion), None)
      ensures bucketRegion == Some(name)
    {
      if bucketRegion == None {
        bucketRegion := Some(Request.DefaultRegion);
      }
      name := bucketRegion.value;
    }

    /** The `S3BucketRegion` setter: non-empty, and a known region. */
    method SetS3BucketRegion(value: NStr) returns (r: Outcome)
      requires Valid()
      modifies this`bucketRegion
      ensures Valid()
      ensures r.Pass? <==> !IsNullOrEmpty(value) && value.s in knownRegions
      ensures bucketRegion == if r.Pass? then Some(value.s) else old(bucketRegion)
    {
      r := Assert.IsNotNullOrEmptyString(value);
      if r.Fail? {
        return;
      }
      var endpoint := Request.GetBySystemName(value, knownRegions);
      if endpoint.Err? {
        return Fail(endpoint.error);
      }
      bucketRegion := Some(endpoint.value);
    }

    /** The `AWSCredentialProfile` setter. */
    method SetAWSCredentialProfile(value: NStr) returns (r: Outcome)
      requires Valid()
      modifies this`credentialProfile
      ensures Valid()
      ensures r.Pass? <==> !IsNullOrEmpty(value)
      ensures credentialProfile == if r.Pass? then value else old(credentialProfile)
    {
      r := Assert.IsNotNullOrEmptyString(value);
      if r.Pass? {
        credentialProfile := value;
      }
    }

    /** The `PackageZipName` setter. */
    method SetPackageZipName(value: NStr) returns (r: Outcome)
      requires Valid()
      modifies this`packageZipName
      ensures Valid()
      ensures r.Pass? <==> PackageZipNameValue(value).Ok?
      ensures packageZipName == if r.Pass? then value else old(packageZipName)
    {
      r := Assert.IsNotNullOrEmptyString(value);
      if r.Fail? {
        return;
      }
      r := Assert.EndsWith(value, Str(".zip"));
      if r.Pass? {
        packageZipName := value;
      }
    }

    /** `GetObjectData`. */
    function GetObjectData(): (r: Result<Request.SerializationInfo>)
      reads this
      ensures r == Serialize(GetFields())
    {
      Serialize(GetFields())
    }
  }
}
