/** The document-store connector (functions/mongo.go): binding its five
    positional arguments, the order in which `MongoFunc` reports its errors,
    and the registry of named connections. The template engine, the JSON
    decoding of the rendered pipeline and the driver's aggregation are
    parameters: `parse` stands for `template.Parse`, `render` for
    `Template.Execute`, and `run` for decoding the pipeline, running it on the
    named database and collection and collecting the cursor. */
module Mongo {
  import opened Dynamic
  import opened Failures
  import Sentinel
  import opened MongoNormalize

  datatype MongoArgs = MongoArgs(
    connectionName: string,
    database: string,
    collection: string,
    query: string,
    args: Value)

  /** The fields of the MongoArgs struct; init counts them by reflection. */
  const MongoArgsFields: seq<string> := ["ConnectionName", "Database", "Collection", "Query", "Args"]
  const MongoArgsFieldCount: nat := |MongoArgsFields|

  /** The index of the first of args[0..3] that is not a string, or 4. */
  function FirstNonString(raw: seq<Value>): (i: nat)
    requires |raw| >= 4
    ensures i <= 4
    ensures forall j | 0 <= j < i :: raw[j].Str?
    ensures i < 4 ==> !raw[i].Str?
  {
    if !raw[0].Str? then 0
    else if !raw[1].Str? then 1
    else if !raw[2].Str? then 2
    else if !raw[3].Str? then 3
    else 4
  }

  /** parseMongoArgs: the exact arity check, then the string checks of
      positions 0 to 3 in order. */
  function ParseMongoArgs(raw: seq<Value>): (r: Result<MongoArgs>)
    ensures |raw| > 5 ==> r == Err(Arity(Sentinel.TooManyArgs))
    ensures |raw| < 5 ==> r == Err(Arity(Sentinel.TooFewArgs))
    ensures r.Ok? <==> |raw| == 5 && forall j | 0 <= j < 4 :: raw[j].Str?
    ensures |raw| == 5 && FirstNonString(raw) < 4 ==>
      r == Err(TypeMismatch("string", TypeName(raw[FirstNonString(raw)])))
    ensures r.Ok? ==> r.value == MongoArgs(raw[0].s, raw[1].s, raw[2].s, raw[3].s, raw[4])
  {
    if |raw| > MongoArgsFieldCount then Err(Arity(Sentinel.TooManyArgs))
    else if |raw| < MongoArgsFieldCount then Err(Arity(Sentinel.TooFewArgs))
    else if !raw[0].Str? then Err(TypeMismatch("string", TypeName(raw[0])))
    else if !raw[1].Str? then Err(TypeMismatch("string", TypeName(raw[1])))
    else if !raw[2].Str? then Err(TypeMismatch("string", TypeName(raw[2])))
    else if !raw[3].Str? then Err(TypeMismatch("string", TypeName(raw[3])))
    else Ok(MongoArgs(raw[0].s, raw[1].s, raw[2].s, raw[3].s, raw[4]))
  }

  /** The fifth argument is bound as it is, whatever its dynamic type. */
  lemma ArgsBoundUnchanged(raw: seq<Value>)
    requires |raw| == 5 && raw[0].Str? && raw[1].Str? && raw[2].Str? && raw[3].Str?
    ensures ParseMongoArgs(raw).Ok? && ParseMongoArgs(raw).value.args == raw[4]
  {
  }

  /** A client handle from the driver; the model never looks inside it. */
  datatype MongoClient = MongoClient(handle: nat)

  /** What MongoFunc returns, with the registry's contents `registry`. */
  function MongoCall(
    raw: seq<Value>,
    registry: map<string, MongoClient>,
    parse: string -> Option<Failure>,
    render: (string, Value) -> Result<string>,
    run: (MongoClient, string, string, string) -> Result<seq<Value>>): Result<Value>
  {
    match ParseMongoArgs(raw)
    case Err(e) => Err(e)
    case Ok(a) =>
      match parse(a.query)
      case Some(e) => Err(e)
      case None =>
        match render(a.query, a.args)
        case Err(e) => Err(e)
        case Ok(pipeline) =>
          if a.connectionName !in registry then Err(Unregistered(a.connectionName))
          else match run(registry[a.connectionName], a.database, a.collection, pipeline)
            case Err(e) => Err(e)
            case Ok(doc) => Ok(Normal(BsonA(doc)))
  }

  /** Argument errors come first: whatever the template and the registry. */
  lemma ArgumentErrorsFirst(
    raw: seq<Value>, registry: map<string, MongoClient>,
    parse: string -> Option<Failure>, render: (string, Value) -> Result<string>,
    run: (MongoClient, string, string, string) -> Result<seq<Value>>)
    requires ParseMongoArgs(raw).Err?
    ensures MongoCall(raw, registry, parse, render, run) == Err(ParseMongoArgs(raw).error)
  {
  }

  /** Template errors come before the connection lookup: with bound
      arguments, a query that does not parse or render fails the same way
      for every registry. */
  lemma TemplateErrorsBeforeLookup(
    raw: seq<Value>, r1: map<string, MongoClient>, r2: map<string, MongoClient>,
    parse: string -> Option<Failure>, render: (string, Value) -> Result<string>,
    run: (MongoClient, string, string, string) -> Result<seq<Value>>)
    requires ParseMongoArgs(raw).Ok?
    requires var a := ParseMongoArgs(raw).value;
      parse(a.query).Some? || render(a.query, a.args).Err?
    ensures MongoCall(raw, r1, parse, render, run).Err?
    ensures MongoCall(raw, r1, parse, render, run) == MongoCall(raw, r2, parse, render, run)
  {
  }

  /** With bound arguments and a rendered template, an unregistered
      connection is reported by name and the query is never run. */
  lemma UnregisteredAfterTemplate(
    raw: seq<Value>, registry: map<string, MongoClient>,
    parse: string -> Option<Failure>, render: (string, Value) -> Result<string>,
    run: (MongoClient, string, string, string) -> Result<seq<Value>>)
    requires ParseMongoArgs(raw).Ok?
    requires var a := ParseMongoArgs(raw).value;
      parse(a.query).None? && render(a.query, a.args).Ok? && a.connectionName !in registry
    ensures MongoCall(raw, registry, parse, render, run) == Err(Unregistered(raw[0].s))
  {
  }

  /** A successful call returns the result set normalised: a plain slice with
      one entry per document, and, when the driver decoded every document as
      bson values, no driver-specific shape at any depth. */
  lemma SuccessIsNormalized(
    raw: seq<Value>, registry: map<string, MongoClient>,
    parse: string -> Option<Failure>, render: (string, Value) -> Result<string>,
    run: (MongoClient, string, string, string) -> Result<seq<Value>>)
    requires MongoCall(raw, registry, parse, render, run).Ok?
    ensures var a := ParseMongoArgs(raw).value;
      var docs := run(registry[a.connectionName], a.database, a.collection, render(a.query, a.args).value).value;
      && MongoCall(raw, registry, parse, render, run).value.Slice?
      && |MongoCall(raw, registry, parse, render, run).value.items| == |docs|
      && (DriverValue(BsonA(docs)) ==> Normalized(MongoCall(raw, registry, parse, render, run).value))
  {
    var a := ParseMongoArgs(raw).value;
    var docs := run(registry[a.connectionName], a.database, a.collection, render(a.query, a.args).value).value;
    if DriverValue(BsonA(docs)) {
      DriverValueNormalized(BsonA(docs));
    }
  }

  /** The package state of the document-store connector. */
  class MongoFunctions {
    var connections: map<string, MongoClient>

    /** init: an empty registry. */
    constructor ()
      ensures connections == map[]
    {
      connections := map[];
    }

    /** MongoFunc */
    method MongoFunc(
      raw: seq<Value>,
      parse: string -> Option<Failure>,
      render: (string, Value) -> Result<string>,
      run: (MongoClient, string, string, string) -> Result<seq<Value>>)
      returns (r: Result<Value>)
      ensures r == MongoCall(raw, connections, parse, render, run)
    {
      var mongoArgs := ParseMongoArgs(raw);
      if mongoArgs.Err? {
        return Err(mongoArgs.error);
      }
      var a := mongoArgs.value;
      var parseError := parse(a.query);
      if parseError.Some? {
        return Err(parseError.value);
      }
      var queryRaw := render(a.query, a.args);
      if queryRaw.Err? {
        return Err(queryRaw.error);
      }
      if a.connectionName !in connections {
        return Err(Unregistered(a.connectionName));
      }
      var connection := connections[a.connectionName];
      var doc := run(connection, a.database, a.collection, queryRaw.value);
      if doc.Err? {
        return Err(doc.error);
      }
      var rs := Unmarshal(BsonA(doc.value));
      return Ok(rs);
    }

    /** RegisterMongoConnection: a failing creator leaves the registry as it
        was; otherwise the client is stored under the name, replacing any
        earlier one. */
    method RegisterMongoConnection(name: string, created: Result<MongoClient>) returns (err: Option<Failure>)
      modifies this
      ensures created.Err? ==> err == Some(created.error) && connections == old(connections)
      ensures created.Ok? ==> err == None && connections == old(connections)[name := created.value]
    {
      if created.Err? {
        return Some(created.error);
      }
      connections := connections[name := created.value];
      return None;
    }
  }
}
