/** Binding the key-value connector's positional arguments onto a RedisArgs
    record (`parseRedisArgs`, functions/redis.go). The optional fields are
    visited in the iteration order of a Go map, which is unspecified, so the
    binding is defined for every order of the optional field names and the
    lemmas below state what holds for all of them. */
module RedisBinding {
  import opened Dynamic
  import opened Failures
  import Sentinel
  import Common

  datatype RedisArgs = RedisArgs(
    connectionName: string,
    command: string,
    arg: Value,
    key: string,   // optional, position 3
    ttl: int)      // optional, position 4, in seconds

  /** The fields of the RedisArgs struct with their tags, in declaration order. */
  const RedisArgsFields: seq<Common.FieldDesc> := [
    Common.FieldDesc("ConnectionName", "", ""),
    Common.FieldDesc("Command", "", ""),
    Common.FieldDesc("Arg", "", ""),
    Common.FieldDesc("Key", "true", "3"),
    Common.FieldDesc("TTL", "true", "4")
  ]

  const RequiredFields: nat := 3
  const OptionalPositions: map<string, int> := map["Key" := 3, "TTL" := 4]

  /** The analyzer finds three required fields and Key, TTL at positions 3, 4. */
  lemma RedisArgsSchema()
    ensures Common.Analysis(RedisArgsFields) == Ok(Common.Schema(RequiredFields, OptionalPositions))
  {
    var f := RedisArgsFields;
    assert Common.Atoi("3") == Ok(3);
    assert Common.Atoi("4") == Ok(4);
    assert f[..1][..0] == [] && f[..2][..1] == f[..1] && f[..3][..2] == f[..2];
    assert f[..4][..3] == f[..3] && f[..5][..4] == f[..4] && f[..5] == f;
    assert Common.Analysis(f[..1]) == Ok(Common.Schema(1, map[]));
    assert Common.Analysis(f[..2]) == Ok(Common.Schema(2, map[]));
    assert Common.Analysis(f[..3]) == Ok(Common.Schema(3, map[]));
    assert Common.Analysis(f[..4]) == Ok(Common.Schema(3, map["Key" := 3]));
  }

  /** int64(x) for a float64 x: truncation toward zero. */
  function TruncateToInt(x: real): (r: int)
    ensures 0.0 <= x ==> r as real <= x < r as real + 1.0
    ensures x < 0.0 ==> r as real - 1.0 < x <= r as real
  {
    if x >= 0.0 then x.Floor else -((-x).Floor)
  }

  /** `order` lists each key of `keys` exactly once. */
  predicate IsEnumeration(order: seq<string>, keys: set<string>)
  {
    && |order| == |keys|
    && (forall i, j | 0 <= i < j < |order| :: order[i] != order[j])
    && (forall k | k in order :: k in keys)
    && (forall k | k in keys :: k in order)
  }

  /** One iteration of the loop over the optional fields: the field `key`
      declared at position `pos`. The guard `len <= value` that follows the nil
      check in the source can never hold there (the index expression before it
      has already panicked), so it is left out. */
  function BindField(raw: seq<Value>, key: string, pos: int, acc: RedisArgs): Result<RedisArgs>
  {
    if !(0 <= pos < |raw|) then Err(IndexOutOfRange(pos, |raw|))
    else if raw[pos].Nil? then Ok(acc)
    else if key == "Key" then
      if raw[pos].Str? then Ok(acc.(key := raw[pos].s))
      else Err(TypeMismatch("string", TypeName(raw[pos])))
    else if key == "TTL" then
      if raw[pos].F64? then Ok(acc.(ttl := TruncateToInt(raw[pos].x)))
      else Err(TypeMismatch("int64", TypeName(raw[pos])))
    else Ok(acc)
  }

  /** The loop over the optional fields, visiting them in `order` and stopping
      at the first failure. */
  function BindOptional(raw: seq<Value>, positions: map<string, int>, order: seq<string>, acc: RedisArgs)
    : Result<RedisArgs>
    requires forall k | k in order :: k in positions
  {
    if order == [] then Ok(acc)
    else match BindField(raw, order[0], positions[order[0]], acc)
      case Err(e) => Err(e)
      case Ok(next) => BindOptional(raw, positions, order[1..], next)
  }

  /** parseRedisArgs when the optional fields are visited in `order`. Note that
      a non-string command is reported with the type of args[0], as in the source. */
  function BindRedis(raw: seq<Value>, order: seq<string>): Result<RedisArgs>
    requires forall k | k in order :: k in OptionalPositions
  {
    if |raw| < RequiredFields then Err(Arity(Sentinel.TooFewArgs))
    else if !raw[0].Str? then Err(TypeMismatch("string", TypeName(raw[0])))
    else if !raw[1].Str? then Err(TypeMismatch("string", TypeName(raw[0])))
    else BindOptional(raw, OptionalPositions, order, RedisArgs(raw[0].s, raw[1].s, raw[2], "", 0))
  }

  /** Visiting a concatenation of orders is visiting one after the other. */
  lemma {:induction false} BindOptionalAppend(
    raw: seq<Value>, positions: map<string, int>, p: seq<string>, q: seq<string>, acc: RedisArgs)
    requires forall k | k in p + q :: k in positions
    ensures BindOptional(raw, positions, p + q, acc) ==
      match BindOptional(raw, positions, p, acc)
      case Ok(b) => BindOptional(raw, positions, q, b)
      case Err(e) => Err(e)
    decreases |p|
  {
    if p != [] {
      assert (p + q)[0] == p[0] && (p + q)[1..] == p[1..] + q;
      var step := BindField(raw, p[0], positions[p[0]], acc);
      if step.Ok? {
        BindOptionalAppend(raw, positions, p[1..], q, step.value);
      }
    } else {
      assert p + q == q;
    }
  }

  /** Visiting two fields is two steps. */
  lemma BindOptionalPair(raw: seq<Value>, k1: string, k2: string, acc: RedisArgs)
    requires k1 in OptionalPositions && k2 in OptionalPositions
    ensures BindOptional(raw, OptionalPositions, [k1, k2], acc) ==
      match BindField(raw, k1, OptionalPositions[k1], acc)
      case Err(e) => Err(e)
      case Ok(b) => BindField(raw, k2, OptionalPositions[k2], b)
  {
    assert [k1, k2][1..] == [k2] && [k2][1..] == [];
    var step := BindField(raw, k1, OptionalPositions[k1], acc);
    if step.Ok? {
      var step2 := BindField(raw, k2, OptionalPositions[k2], step.value);
      if step2.Ok? {
        assert BindOptional(raw, OptionalPositions, [], step2.value) == Ok(step2.value);
      }
    }
  }

  /** Every enumeration of Key and TTL is one of the two orders. */
  lemma RedisOrders(order: seq<string>)
    requires IsEnumeration(order, OptionalPositions.Keys)
    ensures order == ["Key", "TTL"] || order == ["TTL", "Key"]
  {
    assert OptionalPositions.Keys == {"Key", "TTL"};
    assert order[0] in OptionalPositions && order[1] in OptionalPositions;
  }

  /** What a well-formed argument list binds to. */
  predicate WellFormed(raw: seq<Value>)
  {
    && |raw| >= 5
    && raw[0].Str? && raw[1].Str?
    && (raw[3].Nil? || raw[3].Str?)
    && (raw[4].Nil? || raw[4].F64?)
  }

  function Expected(raw: seq<Value>): RedisArgs
    requires WellFormed(raw)
  {
    RedisArgs(
      raw[0].s, raw[1].s, raw[2],
      if raw[3].Str? then raw[3].s else "",
      if raw[4].F64? then TruncateToInt(raw[4].x) else 0)
  }

  /** In every visiting order, binding succeeds exactly on well-formed lists
      (so never on a list shorter than five), and then yields the same record:
      args[2] unchanged, Key "" and TTL 0 where nil, TTL truncated toward zero. */
  lemma BindRedisSucceedsIff(raw: seq<Value>, order: seq<string>)
    requires IsEnumeration(order, OptionalPositions.Keys)
    ensures BindRedis(raw, order).Ok? <==> WellFormed(raw)
    ensures BindRedis(raw, order).Ok? ==> BindRedis(raw, order).value == Expected(raw)
  {
    RedisOrders(order);
    if |raw| >= 3 && raw[0].Str? && raw[1].Str? {
      BindOptionalPair(raw, order[0], order[1], RedisArgs(raw[0].s, raw[1].s, raw[2], "", 0));
    }
  }

  /** The outcome of a successful binding does not depend on the visiting order. */
  lemma BindRedisOrderIndependent(raw: seq<Value>, o1: seq<string>, o2: seq<string>)
    requires IsEnumeration(o1, OptionalPositions.Keys) && IsEnumeration(o2, OptionalPositions.Keys)
    ensures BindRedis(raw, o1).Ok? <==> BindRedis(raw, o2).Ok?
    ensures BindRedis(raw, o1).Ok? ==> BindRedis(raw, o1) == BindRedis(raw, o2)
  {
    BindRedisSucceedsIff(raw, o1);
    BindRedisSucceedsIff(raw, o2);
  }

  /** The optional-field loop fails only by panicking on an index or by a type
      mismatch; in particular it never reports an arity error. */
  lemma {:induction false} BindOptionalFailures(
    raw: seq<Value>, positions: map<string, int>, order: seq<string>, acc: RedisArgs)
    requires forall k | k in order :: k in positions
    ensures BindOptional(raw, positions, order, acc).Err? ==>
      BindOptional(raw, positions, order, acc).error.IndexOutOfRange? ||
      BindOptional(raw, positions, order, acc).error.TypeMismatch?
    decreases |order|
  {
    if order != [] {
      var step := BindField(raw, order[0], positions[order[0]], acc);
      if step.Ok? {
        BindOptionalFailures(raw, positions, order[1..], step.value);
      }
    }
  }

  /** A list shorter than the three required fields fails with TOO_FEW_ARGS; no
      list is ever rejected as too long. */
  lemma BindRedisArity(raw: seq<Value>, order: seq<string>)
    requires forall k | k in order :: k in OptionalPositions
    ensures |raw| < 3 ==> BindRedis(raw, order) == Err(Arity(Sentinel.TooFewArgs))
    ensures BindRedis(raw, order) != Err(Arity(Sentinel.TooManyArgs))
    ensures |raw| >= 3 ==> BindRedis(raw, order) != Err(Arity(Sentinel.TooFewArgs))
  {
    if |raw| >= 3 && raw[0].Str? && raw[1].Str? {
      BindOptionalFailures(raw, OptionalPositions, order,
        RedisArgs(raw[0].s, raw[1].s, raw[2], "", 0));
    }
  }

  /** The leading type checks: a non-string connection name is reported with its
      own type; a non-string command is reported with the type of args[0],
      which at that point is always "string". */
  lemma BindRedisLeadingTypes(raw: seq<Value>, order: seq<string>)
    requires forall k | k in order :: k in OptionalPositions
    requires |raw| >= 3
    ensures !raw[0].Str? ==> BindRedis(raw, order) == Err(TypeMismatch("string", TypeName(raw[0])))
    ensures raw[0].Str? && !raw[1].Str? ==> BindRedis(raw, order) == Err(TypeMismatch("string", "string"))
  {
  }

  /** With three or four arguments the optional-field loop indexes past the end
      (at position 3 or 4) and panics, unless it first reports a bad Key at
      position 3. */
  lemma BindRedisShortList(raw: seq<Value>, order: seq<string>)
    requires IsEnumeration(order, OptionalPositions.Keys)
    requires 3 <= |raw| < 5 && raw[0].Str? && raw[1].Str?
    ensures BindRedis(raw, order).Err?
    ensures BindRedis(raw, order).error == IndexOutOfRange(|raw|, |raw|)
      || BindRedis(raw, order).error == IndexOutOfRange(4, |raw|)
      || (|raw| == 4 && !raw[3].Nil? && !raw[3].Str?
          && BindRedis(raw, order).error == TypeMismatch("string", TypeName(raw[3])))
  {
    RedisOrders(order);
    if |raw| >= 3 && raw[0].Str? && raw[1].Str? {
      BindOptionalPair(raw, order[0], order[1], RedisArgs(raw[0].s, raw[1].s, raw[2], "", 0));
    }
  }

  /** With at least five arguments, a binding failure is a type mismatch at
      position 3 (Key) or 4 (TTL). */
  lemma BindRedisOptionalTypes(raw: seq<Value>, order: seq<string>)
    requires IsEnumeration(order, OptionalPositions.Keys)
    requires |raw| >= 5 && raw[0].Str? && raw[1].Str?
    ensures BindRedis(raw, order).Err? ==>
      (!raw[3].Nil? && !raw[3].Str? && BindRedis(raw, order).error == TypeMismatch("string", TypeName(raw[3])))
      || (!raw[4].Nil? && !raw[4].F64? && BindRedis(raw, order).error == TypeMismatch("int64", TypeName(raw[4])))
  {
    RedisOrders(order);
    if |raw| >= 3 && raw[0].Str? && raw[1].Str? {
      BindOptionalPair(raw, order[0], order[1], RedisArgs(raw[0].s, raw[1].s, raw[2], "", 0));
    }
  }
}
