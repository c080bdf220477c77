/** The boot-environment record and its decoder from a bus property dictionary
    (`BootEnvironmentObject` and `BootEnvironmentObject::from_properties`). */
module Records {
  import opened Wrappers

  /** A signed 64-bit integer, the type of the `Created` property. */
  newtype Int64 = x: int | -0x8000_0000_0000_0000 <= x < 0x8000_0000_0000_0000

  /** A bus object path, kept as its textual form. */
  type ObjectPath = string

  /** A bus property value, reduced to the tags the decoder tells apart; `Other` stands for any
      other bus type, named by its type signature. */
  datatype Value = Str(s: string) | Bool(b: bool) | I64(i: Int64) | Other(signature: string)

  /** The property dictionary of one interface of one object. */
  type PropertyMap = map<string, Value>

  /** A missing property and a property of the wrong type give the same error. */
  datatype DecodeError = IncorrectType

  datatype BootEnvironment = BootEnvironment(
    path: ObjectPath,
    name: string,
    description: Option<string>,
    active: bool,
    nextBoot: bool,
    bootOnce: bool,
    created: Int64)

  /** The six properties the decoder reads. */
  const RequiredKeys: set<string> := {"Description", "Name", "Active", "NextBoot", "BootOnce", "Created"}

  /** Every required property is present with the type the decoder expects. */
  predicate HasRequiredProperties(props: PropertyMap) {
    && "Description" in props && props["Description"].Str?
    && "Name" in props && props["Name"].Str?
    && "Active" in props && props["Active"].Bool?
    && "NextBoot" in props && props["NextBoot"].Bool?
    && "BootOnce" in props && props["BootOnce"].Bool?
    && "Created" in props && props["Created"].I64?
  }

  /** A record as a decoder can produce it: an empty description is never kept. */
  predicate WellFormed(e: BootEnvironment) {
    e.description != Some("")
  }

  // `get_prop`: a lookup followed by a typed downcast; both failures are `IncorrectType`.

  function Lookup(props: PropertyMap, name: string): Result<Value, DecodeError> {
    if name in props then Ok(props[name]) else Err(IncorrectType)
  }

  function AsString(v: Value): Result<string, DecodeError> {
    if v.Str? then Ok(v.s) else Err(IncorrectType)
  }

  function AsBool(v: Value): Result<bool, DecodeError> {
    if v.Bool? then Ok(v.b) else Err(IncorrectType)
  }

  function AsInt64(v: Value): Result<Int64, DecodeError> {
    if v.I64? then Ok(v.i) else Err(IncorrectType)
  }

  /** Decodes one object's property dictionary, all or nothing. `Description` is read first and
      an empty description becomes `None`; the remaining fields are read in declaration order. */
  function FromProperties(path: ObjectPath, props: PropertyMap): (r: Result<BootEnvironment, DecodeError>)
    ensures r.Ok? <==> HasRequiredProperties(props)
    ensures r.Ok? ==>
      && r.value.path == path
      && r.value.name == props["Name"].s
      && (props["Description"].s == "" ==> r.value.description == None)
      && (props["Description"].s != "" ==> r.value.description == Some(props["Description"].s))
      && r.value.active == props["Active"].b
      && r.value.nextBoot == props["NextBoot"].b
      && r.value.bootOnce == props["BootOnce"].b
      && r.value.created == props["Created"].i
    ensures r.Ok? ==> WellFormed(r.value)
  {
    var descriptionValue :- Lookup(props, "Description");
    var descriptionStr :- AsString(descriptionValue);
    var description := if descriptionStr == "" then None else Some(descriptionStr);
    var nameValue :- Lookup(props, "Name");
    var name :- AsString(nameValue);
    var activeValue :- Lookup(props, "Active");
    var active :- AsBool(activeValue);
    var nextBootValue :- Lookup(props, "NextBoot");
    var nextBoot :- AsBool(nextBootValue);
    var bootOnceValue :- Lookup(props, "BootOnce");
    var bootOnce :- AsBool(bootOnceValue);
    var createdValue :- Lookup(props, "Created");
    var created :- AsInt64(createdValue);
    Ok(BootEnvironment(path, name, description, active, nextBoot, bootOnce, created))
  }

  /** The dictionary the service publishes for a record: the inverse of the decoder, with an
      absent description written as the empty string. */
  function ToProperties(e: BootEnvironment): (props: PropertyMap)
    ensures props.Keys == RequiredKeys
    ensures HasRequiredProperties(props)
  {
    map[
      "Description" := Str(if e.description.Some? then e.description.value else ""),
      "Name" := Str(e.name),
      "Active" := Bool(e.active),
      "NextBoot" := Bool(e.nextBoot),
      "BootOnce" := Bool(e.bootOnce),
      "Created" := I64(e.created)]
  }

  /** The part of a dictionary the decoder looks at. */
  function RequiredPart(props: PropertyMap): (part: PropertyMap)
    ensures part.Keys == props.Keys * RequiredKeys
    ensures forall k :: k in part ==> part[k] == props[k]
  {
    map k | k in props && k in RequiredKeys :: props[k]
  }

  /** Encoding a well-formed record and decoding it at its own path gives the record back. */
  lemma RoundTrip(e: BootEnvironment)
    requires WellFormed(e)
    ensures FromProperties(e.path, ToProperties(e)) == Ok(e)
  {
  }

  /** Conversely, a successful decode is explained by the record: the required part of the
      dictionary is exactly the encoding of the decoded record. */
  lemma DecodedIsEncoding(path: ObjectPath, props: PropertyMap, e: BootEnvironment)
    requires FromProperties(path, props) == Ok(e)
    ensures e.path == path
    ensures RequiredPart(props) == ToProperties(e)
  {
  }

  /** Properties other than the six required ones never influence the decoder. */
  lemma OnlyRequiredPropertiesMatter(path: ObjectPath, props: PropertyMap, props': PropertyMap)
    requires RequiredPart(props) == RequiredPart(props')
    ensures FromProperties(path, props) == FromProperties(path, props')
  {
    forall k | k in RequiredKeys
      ensures (k in props <==> k in props') && (k in props ==> props[k] == props'[k])
    {
      if k in props {
        assert k in RequiredPart(props);
      }
      if k in props' {
        assert k in RequiredPart(props');
      }
    }
  }
}
