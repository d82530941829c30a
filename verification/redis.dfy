/** The key-value connector's package state and entry points
    (functions/redis.go): the analysed argument schema, the registry of named
    connections, `parseRedisArgs`, `RedisFunc` and `RegisterRedisConnection`. */
module Redis {
  import opened Dynamic
  import opened Failures
  import Sentinel
  import Common
  import opened RedisBinding
  import opened RedisStore
  import RedisBase64

  /** The operation a command runs, on the addressed connection's entries. The
      fresh key stands for the uuid that cache generates. */
  function Execute(c: Command, s: map<string, Stored>, a: RedisArgs, freshKey: string): Outcome
  {
    match c
    case Cache => CacheStep(s, a.arg, freshKey)
    case Set => SetStep(s, a.key, a.arg)
    case ChangeKey => ChangeKeyStep(s, a.key, a.arg)
    case Get => GetStep(s, a.key)
    case Incr => IncrStep(s, a.key)
    case IncrBase64 => IncrBase64Step(s, a.key)
  }

  /** After binding: the connection lookup, then the command switch. */
  function Route(a: RedisArgs, registered: set<string>): (r: Result<Command>)
    ensures r.Ok? <==> a.connectionName in registered && SelectCommand(a.command).Some?
    ensures r.Ok? ==> r.value == SelectCommand(a.command).value
    ensures a.connectionName !in registered ==> r == Err(Unregistered(a.connectionName))
    ensures a.connectionName in registered && SelectCommand(a.command).None? ==>
      r == Err(UnknownCommand(a.command))
  {
    if a.connectionName !in registered then Err(Unregistered(a.connectionName))
    else match SelectCommand(a.command)
      case None => Err(UnknownCommand(a.command))
      case Some(c) => Ok(c)
  }

  /** An unregistered connection is reported whatever the command, so the
      lookup comes before the command check. */
  lemma UnregisteredBeforeCommand(a: RedisArgs, registered: set<string>, command: string)
    requires a.connectionName !in registered
    ensures Route(a.(command := command), registered) == Route(a, registered)
  {
  }

  /** A command routes as its lowercase form does, and an unknown command is
      reported with the string as given. */
  lemma RouteIgnoresCase(a: RedisArgs, registered: set<string>)
    ensures Route(a, registered).Ok? <==> Route(a.(command := ToLower(a.command)), registered).Ok?
    ensures Route(a, registered).Ok? ==> Route(a, registered) == Route(a.(command := ToLower(a.command)), registered)
  {
    var lower := ToLower(a.command);
    forall i | 0 <= i < |lower| ensures ToLowerChar(lower[i]) == ToLowerChar(a.command[i]) {
    }
    SelectCommandCaseInsensitive(lower, a.command);
  }

  /** incr/base64 returns the counter that incr returns, encoded: for a
      non-negative counter the token decodes back to it. */
  lemma IncrBase64Decodes(s: map<string, Stored>, key: string)
    ensures IncrBase64Step(s, key).entries == IncrStep(s, key).entries
    ensures IncrStep(s, key).reply.Err? ==> IncrBase64Step(s, key) == IncrStep(s, key)
    ensures IncrStep(s, key).reply.Ok? && IncrStep(s, key).reply.value.n >= 0 ==>
      IncrBase64Step(s, key).reply.Ok? &&
      RedisBase64.Decode(IncrBase64Step(s, key).reply.value.s) == IncrStep(s, key).reply.value.n
  {
    var o := IncrStep(s, key);
    if o.reply.Ok? {
      var n := o.reply.value.n;
      assert n <= Common.MaxInt64;
      if n >= 0 {
        assert ToUint64(n) == n;
        var token := RedisBase64.Encode(n);
        assert IncrBase64Step(s, key).reply == Ok(Token(token));
        RedisBase64.DecodeEncode(n);
      }
    }
  }

  /** incr/base64 on a fresh key stores 1 and returns "B", the symbol of 1. */
  lemma IncrBase64Fresh(s: map<string, Stored>, key: string)
    requires key !in s
    ensures IncrBase64Step(s, key) == Outcome(Ok(Token("B")), s[key := Counter(1)])
  {
    IncrCounts(s, key);
    assert IncrStep(s, key) == Outcome(Ok(Count(1)), s[key := Counter(1)]);
    assert ToUint64(1) == 1;
    RedisBase64.EncodeOne();
  }

  /** `visited` lists distinct keys, none of them still `remaining`, and the
      two together are `keys`. */
  ghost predicate Frontier(visited: seq<string>, remaining: set<string>, keys: set<string>)
  {
    && (forall i, j | 0 <= i < j < |visited| :: visited[i] != visited[j])
    && (forall k | k in visited :: k in keys && k !in remaining)
    && remaining <= keys
    && (forall k | k in keys :: k in visited || k in remaining)
    && |visited| + |remaining| == |keys|
  }

  /** Some enumeration of a set. */
  ghost function Enumerate(s: set<string>): (r: seq<string>)
    ensures IsEnumeration(r, s)
  {
    if s == {} then []
    else
      var x :| x in s;
      var rest := Enumerate(s - {x});
      assert forall k | k in [x] + rest && k != x :: k in rest;
      [x] + rest
  }

  /** Visiting the remaining keys in any order completes an enumeration. */
  lemma CompleteOrder(visited: seq<string>, remaining: set<string>, keys: set<string>)
    requires Frontier(visited, remaining, keys)
    ensures IsEnumeration(visited + Enumerate(remaining), keys)
  {
    var rest := Enumerate(remaining);
    var order := visited + rest;
    forall i, j | 0 <= i < j < |order| ensures order[i] != order[j] {
      if j < |visited| {
      } else if i >= |visited| {
        assert order[i] == rest[i - |visited|] && order[j] == rest[j - |visited|];
      } else {
        assert order[i] in visited && order[j] in rest;
      }
    }
  }

  /** One more visited key extends the visit by one BindField step. */
  lemma VisitNext(raw: seq<Value>, visited: seq<string>, key: string, base: RedisArgs)
    requires forall k | k in visited :: k in OptionalPositions
    requires key in OptionalPositions
    ensures BindOptional(raw, OptionalPositions, visited + [key], base) ==
      match BindOptional(raw, OptionalPositions, visited, base)
      case Err(e) => Err(e)
      case Ok(a) => BindField(raw, key, OptionalPositions[key], a)
  {
    BindOptionalAppend(raw, OptionalPositions, visited, [key], base);
    var prefix := BindOptional(raw, OptionalPositions, visited, base);
    if prefix.Ok? {
      var step := BindField(raw, key, OptionalPositions[key], prefix.value);
      assert [key][1..] == [];
      if step.Ok? {
        assert BindOptional(raw, OptionalPositions, [], step.value) == Ok(step.value);
      }
    }
  }

  /** A failed prefix of the visit fails the whole visit. */
  lemma FailureSticks(raw: seq<Value>, p: seq<string>, q: seq<string>, base: RedisArgs)
    requires forall k | k in p + q :: k in OptionalPositions
    requires BindOptional(raw, OptionalPositions, p, base).Err?
    ensures BindOptional(raw, OptionalPositions, p + q, base) == BindOptional(raw, OptionalPositions, p, base)
  {
    BindOptionalAppend(raw, OptionalPositions, p, q, base);
  }

  /** One iteration of the optional-field loop: visiting `key` next extends the
      frontier and the binding by one BindField step, and when that step fails,
      every completion of the order fails the same way. */
  lemma Advance(raw: seq<Value>, visited: seq<string>, key: string, remaining: set<string>, base: RedisArgs, acc: RedisArgs)
    requires Frontier(visited, remaining, OptionalPositions.Keys) && key in remaining
    requires BindOptional(raw, OptionalPositions, visited, base) == Ok(acc)
    ensures Frontier(visited + [key], remaining - {key}, OptionalPositions.Keys)
    ensures BindOptional(raw, OptionalPositions, visited + [key], base)
      == BindField(raw, key, OptionalPositions[key], acc)
    ensures var order := visited + [key] + Enumerate(remaining - {key});
      BindField(raw, key, OptionalPositions[key], acc).Err? ==>
        IsEnumeration(order, OptionalPositions.Keys)
        && BindOptional(raw, OptionalPositions, order, base) == BindField(raw, key, OptionalPositions[key], acc)
  {
    VisitNext(raw, visited, key, base);
    assert Frontier(visited + [key], remaining - {key}, OptionalPositions.Keys);
    if BindField(raw, key, OptionalPositions[key], acc).Err? {
      CompleteOrder(visited + [key], remaining - {key}, OptionalPositions.Keys);
      FailureSticks(raw, visited + [key], Enumerate(remaining - {key}), base);
    }
  }

  /** The package state of the key-value connector. */
  class RedisFunctions {
    var fieldCount: nat
    var optionalFields: map<string, int>
    var connections: map<string, KeyValueStore>

    /** The schema is the one the analyzer derives from RedisArgs. */
    ghost predicate Valid()
      reads this
    {
      fieldCount == RequiredFields && optionalFields == OptionalPositions
    }

    /** init: analyse RedisArgs and start with an empty registry. The analysis
        is proved to succeed, so the panic on its error cannot happen. */
    constructor ()
      ensures Valid() && connections == map[]
    {
      var analysis := Common.AnalyzeFields(RedisArgsFields);
      RedisArgsSchema();
      fieldCount := analysis.value.required;
      optionalFields := analysis.value.optional;
      connections := map[];
    }

    /** parseRedisArgs. The optional fields are taken from the map in an order
        the method chooses freely; `order` records it. */
    method ParseRedisArgs(raw: seq<Value>) returns (r: Result<RedisArgs>, ghost order: seq<string>)
      requires Valid()
      ensures IsEnumeration(order, OptionalPositions.Keys)
      ensures r == BindRedis(raw, order)
    {
      var len := |raw|;
      order := Enumerate(OptionalPositions.Keys);
      if len < fieldCount {
        return Err(Arity(Sentinel.TooFewArgs)), order;
      }
      if !raw[0].Str? {
        return Err(TypeMismatch("string", TypeName(raw[0]))), order;
      }
      var connection := raw[0].s;
      if !raw[1].Str? {
        return Err(TypeMismatch("string", TypeName(raw[0]))), order;
      }
      var command := raw[1].s;
      var base := RedisArgs(connection, command, raw[2], "", 0);
      var redisArgs := base;
      var remaining := optionalFields.Keys;
      ghost var visited: seq<string> := [];
      while remaining != {}
        invariant Frontier(visited, remaining, OptionalPositions.Keys)
        invariant BindOptional(raw, OptionalPositions, visited, base) == Ok(redisArgs)
        decreases |remaining|
      {
        var key :| key in remaining;
        var value := optionalFields[key];
        Advance(raw, visited, key, remaining, base, redisArgs);
        ghost var stopped := visited + [key] + Enumerate(remaining - {key});
        if !(0 <= value < len) {
          return Err(IndexOutOfRange(value, len)), stopped;
        }
        if raw[value].Nil? {
          visited, remaining := visited + [key], remaining - {key};
          continue;
        }
        if key == "Key" {
          if !raw[value].Str? {
            return Err(TypeMismatch("string", TypeName(raw[value]))), stopped;
          }
          redisArgs := redisArgs.(key := raw[value].s);
        } else if key == "TTL" {
          if !raw[value].F64? {
            return Err(TypeMismatch("int64", TypeName(raw[value]))), stopped;
          }
          redisArgs := redisArgs.(ttl := TruncateToInt(raw[value].x));
        }
        visited, remaining := visited + [key], remaining - {key};
      }
      CompleteOrder(visited, {}, OptionalPositions.Keys);
      assert visited + Enumerate({}) == visited;
      return Ok(redisArgs), visited;
    }

    /** The connection a successful call addresses. */
    ghost function Target(raw: seq<Value>, order: seq<string>): Option<string>
      requires IsEnumeration(order, OptionalPositions.Keys)
      reads this
    {
      match BindRedis(raw, order)
      case Err(_) => None
      case Ok(a) => if Route(a, connections.Keys).Ok? then Some(a.connectionName) else None
    }

    /** RedisFunc: bind the arguments, look the connection up, select the
        command and run it against that connection's store. */
    method RedisFunc(raw: seq<Value>, freshKey: string) returns (r: Result<Reply>, ghost order: seq<string>)
      requires Valid()
      modifies connections.Values
      ensures IsEnumeration(order, OptionalPositions.Keys)
      ensures match BindRedis(raw, order)
        case Err(e) => r == Err(e)
        case Ok(a) =>
          match Route(a, connections.Keys)
          case Err(e) => r == Err(e)
          case Ok(c) =>
            Outcome(r, connections[a.connectionName].entries)
              == Execute(c, old(connections[a.connectionName].entries), a, freshKey)
      ensures forall n | n in connections ::
        || connections[n].entries == old(connections[n].entries)
        || (Target(raw, order).Some? && connections[n] == connections[Target(raw, order).value])
    {
      var bound;
      bound, order := ParseRedisArgs(raw);
      if bound.Err? {
        return Err(bound.error), order;
      }
      var redisArgs := bound.value;
      if redisArgs.connectionName !in connections {
        return Err(Unregistered(redisArgs.connectionName)), order;
      }
      var connection := connections[redisArgs.connectionName];
      var command := SelectCommand(redisArgs.command);
      match command
      case None =>
        r := Err(UnknownCommand(redisArgs.command));
      case Some(Cache) =>
        r := RedisCache(connection, redisArgs.arg, freshKey);
      case Some(Set) =>
        r := RedisSet(connection, redisArgs.key, redisArgs.arg);
      case Some(ChangeKey) =>
        r := RedisChangeKey(connection, redisArgs.key, redisArgs.arg);
      case Some(Get) =>
        r := RedisGet(connection, redisArgs.key);
      case Some(Incr) =>
        r := RedisIncr(connection, redisArgs.key);
      case Some(IncrBase64) =>
        var rs := RedisIncr(connection, redisArgs.key);
        if rs.Err? {
          r := rs;
        } else {
          var token := RedisBase64.ToBase64(ToUint64(rs.value.n));
          r := Ok(Token(token));
        }
    }

    /** RegisterRedisConnection: a failing creator leaves the registry as it
        was; otherwise the client is stored under the name, replacing any
        earlier one. */
    method RegisterRedisConnection(name: string, created: Result<KeyValueStore>) returns (err: Option<Failure>)
      modifies this
      ensures created.Err? ==> err == Some(created.error) && connections == old(connections)
      ensures created.Ok? ==> err == None && connections == old(connections)[name := created.value]
      ensures fieldCount == old(fieldCount) && optionalFields == old(optionalFields)
    {
      if created.Err? {
        return Some(created.error);
      }
      connections := connections[name := created.value];
      return None;
    }
  }
}
