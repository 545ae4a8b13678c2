/** The JSON layer of the vault (`serde_json::to_string` / `from_str`).
    A JSON document is modelled as a structured value rather than as text;
    decoding checks the shape the Rust type demands and fails with
    `SerdeError` otherwise. */
module Json {
  import opened Results
  import opened Errors

  datatype Json =
    | JString(s: string)
    | JObject(fields: map<string, Json>)
    | JOther                            // numbers, arrays, malformed text, ...

  /** A configuration payload, `HashMap<String, String>`. */
  type Config = map<string, string>

  /** The directory, `HashMap<String, HashMap<String, String>>`. */
  type Directory = map<string, Config>

  predicate IsConfigJson(j: Json) {
    j.JObject? && forall k | k in j.fields :: j.fields[k].JString?
  }

  predicate IsDirectoryJson(j: Json) {
    j.JObject? && forall id | id in j.fields :: IsConfigJson(j.fields[id])
  }

  function EncodeConfig(c: Config): (j: Json)
    ensures IsConfigJson(j)
    ensures j.fields.Keys == c.Keys
  {
    JObject(map k | k in c :: JString(c[k]))
  }

  function DecodeConfig(j: Json): (r: Result<Config, VaultError>)
    ensures r.Success? <==> IsConfigJson(j)
    ensures r.Failure? ==> r.error == SerdeError
    ensures r.Success? ==> r.value.Keys == j.fields.Keys
  {
    if IsConfigJson(j) then Success(map k | k in j.fields :: j.fields[k].s)
    else Failure(SerdeError)
  }

  function EncodeDirectory(d: Directory): (j: Json)
    ensures IsDirectoryJson(j)
    ensures j.fields.Keys == d.Keys
  {
    JObject(map id | id in d :: EncodeConfig(d[id]))
  }

  function DecodeDirectory(j: Json): (r: Result<Directory, VaultError>)
    ensures r.Success? <==> IsDirectoryJson(j)
    ensures r.Failure? ==> r.error == SerdeError
    ensures r.Success? ==> r.value.Keys == j.fields.Keys
  {
    if IsDirectoryJson(j) then
      Success(map id | id in j.fields :: DecodeConfig(j.fields[id]).value)
    else Failure(SerdeError)
  }

  /** Serialising a configuration and parsing it back yields the configuration. */
  lemma ConfigRoundTrip(c: Config)
    ensures DecodeConfig(EncodeConfig(c)) == Success(c)
  {
    var j := EncodeConfig(c);
    var d := DecodeConfig(j).value;
    assert d.Keys == c.Keys;
    forall k | k in c ensures d[k] == c[k] {
      assert j.fields[k] == JString(c[k]);
    }
    assert d == c;
  }

  /** Parsing then re-serialising is the identity on well-shaped documents. */
  lemma ConfigParseThenPrint(j: Json)
    requires DecodeConfig(j).Success?
    ensures EncodeConfig(DecodeConfig(j).value) == j
  {
    var c := DecodeConfig(j).value;
    var j' := EncodeConfig(c);
    assert j'.fields.Keys == j.fields.Keys;
    forall k | k in j.fields ensures j'.fields[k] == j.fields[k] {
      assert j.fields[k] == JString(j.fields[k].s);
    }
    assert j'.fields == j.fields;
  }

  lemma DirectoryRoundTrip(d: Directory)
    ensures DecodeDirectory(EncodeDirectory(d)) == Success(d)
  {
    var j := EncodeDirectory(d);
    var d' := DecodeDirectory(j).value;
    assert d'.Keys == d.Keys;
    forall id | id in d ensures d'[id] == d[id] {
      ConfigRoundTrip(d[id]);
    }
    assert d' == d;
  }

  lemma DirectoryParseThenPrint(j: Json)
    requires DecodeDirectory(j).Success?
    ensures EncodeDirectory(DecodeDirectory(j).value) == j
  {
    var d := DecodeDirectory(j).value;
    var j' := EncodeDirectory(d);
    forall id | id in j.fields ensures j'.fields[id] == j.fields[id] {
      ConfigParseThenPrint(j.fields[id]);
    }
    assert j'.fields == j.fields;
  }

  /** A configuration document read as a directory parses only when it is
      the empty object `{}`. */
  lemma ConfigAsDirectory(c: Config)
    ensures DecodeDirectory(EncodeConfig(c)).Success? <==> c == map[]
  {
    var j := EncodeConfig(c);
    if c != map[] {
      var k :| k in c;
      assert j.fields[k] == JString(c[k]);
      assert !IsConfigJson(j.fields[k]);
    } else {
      assert j.fields == map[];
    }
  }
}
