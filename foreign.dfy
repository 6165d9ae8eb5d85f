/**
 * The library calls the exporter's core makes and does not implement:
 * text/template, encoding/json and strconv.  Their behaviour is not
 * modelled; every operation of the core takes an `Externals` value whose
 * fields stand for these calls, and every property proved here holds
 * whatever those functions are.
 */
module Foreign {
  import opened Wrappers

  /** A record as encoding/json decodes it into an `interface{}`. */
  datatype Json =
    | JNull
    | JBool(b: bool)
    | JNumber(n: real)
    | JString(s: string)
    | JArray(items: seq<Json>)
    | JObject(fields: map<string, Json>)

  /** A template as `template.New(name).Parse(source)` builds it. */
  datatype Template = Template(name: string, source: string)

  /**
   * What the library calls return.  Each call is a total function of its
   * arguments, given as the set or map of arguments on which it succeeds.
   */
  datatype Externals = Externals(
    parsing: iset<Template>,
    executions: imap<(Template, Json), string>,
    records: imap<string, Json>,
    numbers: imap<string, real>)
  {
    /** `template.New(t.name).Parse(t.source)` returns no error. */
    predicate Parses(t: Template)
    {
      t in parsing
    }

    /**
     * text/template parses the empty source without an error, whatever
     * the template's name: the one fact about the library the core relies on.
     */
    ghost predicate EmptyParses()
    {
      forall name: string :: Parses(Template(name, ""))
    }

    /** `t.Execute(&out, data)`: the text written, or None on an error. */
    function Execute(t: Template, data: Json): Option<string>
    {
      if (t, data) in executions then Some(executions[(t, data)]) else None
    }

    /** `json.Unmarshal(line, &data)`: the record, or None on an error. */
    function Unmarshal(line: string): Option<Json>
    {
      if line in records then Some(records[line]) else None
    }

    /** `strconv.ParseFloat(s, 64)`: the number, or None on an error. */
    function ParseFloat(s: string): Option<real>
    {
      if s in numbers then Some(numbers[s]) else None
    }
  }
}
