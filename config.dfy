/**
  Validation of the endpoint configuration (load_config and its nested
  validate_endpoint in main.py). The YAML text is assumed already parsed;
  the model starts from the parsed value.
 */
module Config {
  import opened Wrappers

  /** A parsed YAML value: a mapping, a list, a string, or any other scalar
      (number, boolean, null). */
  datatype Yaml =
    | YMap(entries: map<string, Yaml>)
    | YList(items: seq<Yaml>)
    | YStr(text: string)
    | YScalar

  /** The fields validate_endpoint inspects, in the order it inspects them. */
  datatype Field = Name | Url | Method | Headers | Body

  const FieldOrder: seq<Field> := [Name, Url, Method, Headers, Body]

  function Key(f: Field): string
  {
    match f
    case Name => "name"
    case Url => "url"
    case Method => "method"
    case Headers => "headers"
    case Body => "body"
  }

  /** Position of a field in the order of the checks. */
  function Rank(f: Field): (i: nat)
    ensures i < |FieldOrder| && FieldOrder[i] == f
  {
    match f
    case Name => 0
    case Url => 1
    case Method => 2
    case Headers => 3
    case Body => 4
  }

  /** `name` and `url` are required strings; `method` and `body`, when
      present, are strings; `headers`, when present, is a mapping. */
  predicate FieldOk(m: map<string, Yaml>, f: Field)
  {
    match f
    case Name => "name" in m && m["name"].YStr?
    case Url => "url" in m && m["url"].YStr?
    case Method => "method" !in m || m["method"].YStr?
    case Headers => "headers" !in m || m["headers"].YMap?
    case Body => "body" !in m || m["body"].YStr?
  }

  datatype EndpointError =
    | NotAMapping              // `endpoint.get` on a value that is not a dict
    | BadField(field: Field)   // the ValueError naming this field

  datatype ConfigError =
    | NotAList                          // top level of the file is not a list
    | BadEndpoint(cause: EndpointError) // the first record that fails

  /** A validated endpoint: the fields the probe reads. The header values and
      the body text are not inspected by validation. */
  datatype Endpoint = Endpoint(
    name: string,
    url: string,
    verb: Option<string>,   // the `method` field
    headers: Option<map<string, Yaml>>,
    body: Option<string>)

  function OptStr(m: map<string, Yaml>, k: string): Option<string>
  {
    if k in m && m[k].YStr? then Some(m[k].text) else None
  }

  /** validate_endpoint: the checks in source order, the first failure wins. */
  function ValidateEndpoint(v: Yaml): (r: Result<Endpoint, EndpointError>)
    ensures r == Err(NotAMapping) <==> !v.YMap?
    ensures r.Ok? <==> v.YMap? && forall f: Field :: FieldOk(v.entries, f)
    ensures r.Err? && r.error.BadField? ==>
              v.YMap? && !FieldOk(v.entries, r.error.field) &&
              forall i :: 0 <= i < Rank(r.error.field) ==> FieldOk(v.entries, FieldOrder[i])
    ensures r.Ok? ==>
              && "name" in v.entries && "url" in v.entries
              && YStr(r.value.name) == v.entries["name"]
              && YStr(r.value.url) == v.entries["url"]
              && (r.value.verb.Some? <==> "method" in v.entries)
              && (r.value.verb.Some? ==> YStr(r.value.verb.value) == v.entries["method"])
              && (r.value.headers.Some? <==> "headers" in v.entries)
              && (r.value.headers.Some? ==> YMap(r.value.headers.value) == v.entries["headers"])
              && (r.value.body.Some? <==> "body" in v.entries)
              && (r.value.body.Some? ==> YStr(r.value.body.value) == v.entries["body"])
  {
    match v
    case YMap(m) =>
      if !("name" in m && m["name"].YStr?) then assert !FieldOk(m, Name); Err(BadField(Name))
      else if !("url" in m && m["url"].YStr?) then assert !FieldOk(m, Url); Err(BadField(Url))
      else if "method" in m && !m["method"].YStr? then assert !FieldOk(m, Method); Err(BadField(Method))
      else if "headers" in m && !m["headers"].YMap? then assert !FieldOk(m, Headers); Err(BadField(Headers))
      else if "body" in m && !m["body"].YStr? then assert !FieldOk(m, Body); Err(BadField(Body))
      else
        Ok(Endpoint(
             m["name"].text,
             m["url"].text,
             OptStr(m, "method"),
             if "headers" in m then Some(m["headers"].entries) else None,
             OptStr(m, "body")))
    case _ => Err(NotAMapping)
  }

  /** A record whose `name` is missing or not a string is rejected with that
      field, whatever else it holds. */
  lemma NameCheckedFirst(m: map<string, Yaml>)
    requires !("name" in m && m["name"].YStr?)
    ensures ValidateEndpoint(YMap(m)) == Err(BadField(Name))
  {
  }

  /** Leaving out an optional field never makes a valid record invalid, and
      a record holding only a string name and a string url is valid. */
  lemma OptionalFieldsMayBeAbsent(m: map<string, Yaml>, f: Field)
    requires f in {Method, Headers, Body}
    requires ValidateEndpoint(YMap(m)).Ok?
    ensures ValidateEndpoint(YMap(m - {Key(f)})).Ok?
  {
  }

  lemma MinimalRecordValid(name: string, url: string)
    ensures ValidateEndpoint(YMap(map["name" := YStr(name), "url" := YStr(url)])).Ok?
  {
  }

  /** load_config after yaml.safe_load: the top level must be a list, then
      every record is validated in list order; the first failing record aborts
      the whole load. On success the records come back in their order. */
  method LoadConfig(data: Yaml) returns (r: Result<seq<Endpoint>, ConfigError>)
    ensures r == Err(NotAList) <==> !data.YList?
    ensures r.Ok? ==>
              data.YList? && |r.value| == |data.items| &&
              forall i :: 0 <= i < |data.items| ==> ValidateEndpoint(data.items[i]) == Ok(r.value[i])
    ensures r.Err? && r.error.BadEndpoint? ==>
              data.YList? &&
              exists i :: 0 <= i < |data.items| && ValidateEndpoint(data.items[i]) == Err(r.error.cause) &&
                          forall j :: 0 <= j < i ==> ValidateEndpoint(data.items[j]).Ok?
    ensures data.YList? && (forall i :: 0 <= i < |data.items| ==> ValidateEndpoint(data.items[i]).Ok?) ==> r.Ok?
  {
    if !data.YList? {
      return Err(NotAList);
    }
    var items := data.items;
    var endpoints: seq<Endpoint> := [];
    for k := 0 to |items|
      invariant |endpoints| == k
      invariant forall i :: 0 <= i < k ==> ValidateEndpoint(items[i]) == Ok(endpoints[i])
    {
      var v := ValidateEndpoint(items[k]);
      match v
      case Err(e) =>
        return Err(BadEndpoint(e));
      case Ok(ep) =>
        endpoints := endpoints + [ep];
    }
    return Ok(endpoints);
  }
}
