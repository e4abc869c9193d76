/**
 * The remote HydroShare service as the session sees it. The service itself
 * (reached through the REST client library) is not modelled: `Service` is a
 * snapshot of how it answers, and `Call` records each request the session
 * sends it, so that the order and the absence of requests can be stated.
 */
module Remote {
  import opened Wrappers

  /** An authenticated client handle, as produced by one of the credential readers. */
  datatype Handle = Handle(user: string)

  /** A metadata value as delivered by the service: a JSON-like tree. */
  datatype Value =
    | Str(s: string)
    | Int(i: int)
    | Null
    | List(items: seq<Value>)
    | Dict(fields: map<string, Value>)

  /** The attributes of a resource metadata object, by name (`vars(meta)`). */
  type Attrs = map<string, Value>

  /**
   * The `keywords` argument of the create request: the caller's list as given,
   * or a set once it has been merged with a parent resource's keywords.
   */
  datatype Keywords = KeywordList(list: seq<string>) | KeywordSet(merged: set<Value>)

  /** One request sent to the service. */
  datatype Call =
    | GetResourceTypes
    | GetResourceMetadata(id: string)
    | CreateResource(resourceType: string, title: string, abstractText: string,
                     resourceFile: Option<string>, keywords: Keywords)
    | AddResourceFile(resid: string, file: string)
    | GetResource(resid: string, destination: string)

  /**
   * How the service answers: the resource types it lists, the metadata
   * object of each resource it can describe, the id its next create request
   * returns (None: the request raises), the files it refuses to attach, and
   * the resources it lets the user download.
   */
  datatype Service = Service(
    resourceTypes: seq<string>,
    metadata: map<string, Attrs>,
    createdId: Option<string>,
    rejectedFiles: set<string>,
    downloadable: set<string>)

  /** The upload requests for `files`, one per file, in order. */
  function Uploads(resid: string, files: seq<string>): (calls: seq<Call>)
    ensures |calls| == |files|
    ensures forall i :: 0 <= i < |files| ==> calls[i] == AddResourceFile(resid, files[i])
  {
    seq(|files|, i requires 0 <= i < |files| => AddResourceFile(resid, files[i]))
  }
}
