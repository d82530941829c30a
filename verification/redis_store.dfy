/** The key-value connector's store operations (`redisCache`, `redisSet`,
    `redisChangeKey`, `redisGet`, `redisIncr` in functions/redis.go) and its
    command selection, against an in-memory model of the store that a client
    connection talks to. */
module RedisStore {
  import opened Dynamic
  import opened Failures
  import RedisBase64
  import Common

  /** A stored string. `Wrapped(p)` is the JSON text of the wrapper document
      {"data": p} that cache and set write; `Counter(n)` is the decimal text of
      an integer, as SET of a number and INCR leave it. */
  datatype Stored = Wrapped(payload: Value) | Counter(n: int)

  /** The dynamic results the connector returns: a generated key (cache), the
      unwrapped payload (set, get), the raw stored string (changekey), the new
      counter (incr) and the encoded counter (incr/base64). */
  datatype Reply = Key(key: string) | Payload(v: Value) | Raw(entry: Stored) | Count(n: int) | Token(s: string)

  /** A store's state after one operation, with what the operation returned. */
  datatype Outcome = Outcome(reply: Result<Reply>, entries: map<string, Stored>)

  /** The store behind one client connection: the commands the connector uses. */
  class KeyValueStore {
    var entries: map<string, Stored>

    constructor ()
      ensures entries == map[]
    {
      entries := map[];
    }

    /** SET key value (expiry is not modelled). */
    method Set(key: string, value: Stored)
      modifies this
      ensures entries == old(entries)[key := value]
    {
      entries := entries[key := value];
    }

    /** GET key: the stored string, or `redis.Nil` when the key is absent. */
    method Get(key: string) returns (r: Result<Stored>)
      ensures key in entries ==> r == Ok(entries[key])
      ensures key !in entries ==> r == Err(Store(KeyAbsent))
    {
      if key in entries {
        r := Ok(entries[key]);
      } else {
        r := Err(Store(KeyAbsent));
      }
    }

    /** DEL key: the number of keys removed. */
    method Del(key: string) returns (removed: nat)
      modifies this
      ensures entries == old(entries) - {key}
      ensures removed == if key in old(entries) then 1 else 0
    {
      removed := if key in entries then 1 else 0;
      entries := entries - {key};
    }

    /** EXISTS key: the number of the given keys that exist. */
    method Exists(key: string) returns (count: nat)
      ensures count == if key in entries then 1 else 0
    {
      count := if key in entries then 1 else 0;
    }

    /** INCR key: an absent key counts as 0; a non-integer value or an
        increment past the largest 64-bit integer fails and changes nothing. */
    method Incr(key: string) returns (r: Result<int>)
      modifies this
      ensures var start := if key in old(entries) then old(entries)[key] else Counter(0);
        if start.Wrapped? then r == Err(Store(NotAnInteger)) && entries == old(entries)
        else if start.n >= Common.MaxInt64 then r == Err(Store(IncrOverflow)) && entries == old(entries)
        else r == Ok(start.n + 1) && entries == old(entries)[key := Counter(start.n + 1)]
    {
      var start := if key in entries then entries[key] else Counter(0);
      if start.Wrapped? {
        r := Err(Store(NotAnInteger));
      } else if start.n >= Common.MaxInt64 {
        r := Err(Store(IncrOverflow));
      } else {
        entries := entries[key := Counter(start.n + 1)];
        r := Ok(start.n + 1);
      }
    }
  }

  // The effect of each connector operation on the store's entries.

  /** cache: stores the wrapped payload under the fresh key and returns the key. */
  function CacheStep(s: map<string, Stored>, arg: Value, freshKey: string): Outcome
  {
    Outcome(Ok(Key(freshKey)), s[freshKey := Wrapped(arg)])
  }

  /** set: stores the wrapped payload under the given key and returns the payload. */
  function SetStep(s: map<string, Stored>, key: string, arg: Value): Outcome
  {
    Outcome(Ok(Payload(arg)), s[key := Wrapped(arg)])
  }

  /** changekey: moves the raw value from `key` to the key named by `arg`. */
  function ChangeKeyStep(s: map<string, Stored>, key: string, arg: Value): Outcome
  {
    if !arg.Str? then Outcome(Err(TypeMismatch("string", TypeName(arg))), s)
    else if key !in s then Outcome(Err(Store(KeyAbsent)), s)
    else Outcome(Ok(Raw(s[key])), (s - {key})[arg.s := s[key]])
  }

  /** get: the "data" field of the stored wrapper document. */
  function GetStep(s: map<string, Stored>, key: string): Outcome
  {
    if key !in s then Outcome(Err(Store(KeyAbsent)), s)
    else match s[key]
      case Wrapped(p) => Outcome(Ok(Payload(p)), s)
      case Counter(_) => Outcome(Err(Decode("number")), s)
  }

  /** incr: initialises an absent key to 0, then increments it. */
  function IncrStep(s: map<string, Stored>, key: string): Outcome
  {
    var s1 := if key in s then s else s[key := Counter(0)];
    match s1[key]
    case Wrapped(_) => Outcome(Err(Store(NotAnInteger)), s1)
    case Counter(n) =>
      if n >= Common.MaxInt64 then Outcome(Err(Store(IncrOverflow)), s1)
      else Outcome(Ok(Count(n + 1)), s1[key := Counter(n + 1)])
  }

  /** uint64(n) for an int64 n. */
  function ToUint64(n: int): RedisBase64.Uint64
  {
    n % 0x1_0000_0000_0000_0000
  }

  /** The conversion keeps a non-negative int64 and adds 2^64 to a negative
      one, the two's-complement reading of the same bits. */
  lemma ToUint64OfInt64(n: int)
    requires Common.MinInt64 <= n <= Common.MaxInt64
    ensures 0 <= n ==> ToUint64(n) == n
    ensures n < 0 ==> ToUint64(n) == n + 0x1_0000_0000_0000_0000
  {
  }

  /** incr/base64: incr, then the new counter in the 64-symbol encoding. */
  function IncrBase64Step(s: map<string, Stored>, key: string): Outcome
  {
    var o := IncrStep(s, key);
    if o.reply.Ok? && o.reply.value.Count? then
      Outcome(Ok(Token(RedisBase64.Encode(ToUint64(o.reply.value.n)))), o.entries)
    else o
  }

  /** redisCache */
  method RedisCache(conn: KeyValueStore, arg: Value, freshKey: string) returns (r: Result<Reply>)
    modifies conn
    ensures Outcome(r, conn.entries) == CacheStep(old(conn.entries), arg, freshKey)
  {
    conn.Set(freshKey, Wrapped(arg));
    r := Ok(Key(freshKey));
  }

  /** redisSet */
  method RedisSet(conn: KeyValueStore, key: string, arg: Value) returns (r: Result<Reply>)
    modifies conn
    ensures Outcome(r, conn.entries) == SetStep(old(conn.entries), key, arg)
  {
    conn.Set(key, Wrapped(arg));
    r := Ok(Payload(arg));
  }

  /** redisChangeKey: GET, then DEL, then SET, each step's failure returned. */
  method RedisChangeKey(conn: KeyValueStore, key: string, arg: Value) returns (r: Result<Reply>)
    modifies conn
    ensures Outcome(r, conn.entries) == ChangeKeyStep(old(conn.entries), key, arg)
  {
    if !arg.Str? {
      return Err(TypeMismatch("string", TypeName(arg)));
    }
    var newKey := arg.s;
    var value := conn.Get(key);
    if value.Err? {
      return Err(value.error);
    }
    var _ := conn.Del(key);
    conn.Set(newKey, value.value);
    r := Ok(Raw(value.value));
  }

  /** redisGet: GET, then unmarshal the wrapper and return its "data" field. */
  method RedisGet(conn: KeyValueStore, key: string) returns (r: Result<Reply>)
    ensures Outcome(r, conn.entries) == GetStep(conn.entries, key)
  {
    var rs := conn.Get(key);
    if rs.Err? {
      return Err(rs.error);
    }
    match rs.value
    case Wrapped(p) => r := Ok(Payload(p));
    case Counter(_) => r := Err(Decode("number"));
  }

  /** redisIncr: EXISTS, then SET key 0 when absent, then INCR. */
  method RedisIncr(conn: KeyValueStore, key: string) returns (r: Result<Reply>)
    modifies conn
    ensures Outcome(r, conn.entries) == IncrStep(old(conn.entries), key)
  {
    var present := conn.Exists(key);
    if present == 0 {
      conn.Set(key, Counter(0));
    }
    var rs := conn.Incr(key);
    if rs.Err? {
      return Err(rs.error);
    }
    r := Ok(Count(rs.value));
  }

  // Multi-step properties of the store operations.

  /** A set followed by a get of the same key returns the payload that was set. */
  lemma SetThenGet(s: map<string, Stored>, key: string, p: Value)
    ensures GetStep(SetStep(s, key, p).entries, key).reply == Ok(Payload(p))
  {
  }

  /** The key returned by cache fetches the cached payload. */
  lemma CacheThenGet(s: map<string, Stored>, p: Value, freshKey: string)
    ensures CacheStep(s, p, freshKey).reply == Ok(Key(freshKey))
    ensures GetStep(CacheStep(s, p, freshKey).entries, freshKey).reply == Ok(Payload(p))
  {
  }

  /** After a successful changekey from a to b, b holds what a held (so a get
      of b returns what a get of a returned), a is gone unless a == b, and no
      other key changed. A failed changekey leaves the store unchanged. */
  lemma ChangeKeyMoves(s: map<string, Stored>, a: string, b: string)
    ensures var o := ChangeKeyStep(s, a, Str(b));
      o.reply.Ok? <==> a in s
    ensures var o := ChangeKeyStep(s, a, Str(b));
      o.reply.Ok? ==>
        && o.reply.value == Raw(s[a])
        && GetStep(o.entries, b).reply == GetStep(s, a).reply
        && (a != b ==> GetStep(o.entries, a).reply == Err(Store(KeyAbsent)))
        && (forall k | k in s && k != a && k != b :: k in o.entries && o.entries[k] == s[k])
        && o.entries.Keys == s.Keys - {a} + {b}
    ensures ChangeKeyStep(s, a, Str(b)).reply.Err? ==> ChangeKeyStep(s, a, Str(b)).entries == s
  {
  }

  /** A non-string target key is rejected before the store is touched. */
  lemma ChangeKeyNeedsString(s: map<string, Stored>, key: string, arg: Value)
    requires !arg.Str?
    ensures ChangeKeyStep(s, key, arg) == Outcome(Err(TypeMismatch("string", TypeName(arg))), s)
  {
  }

  /** incr on an absent key stores 0 and then returns 1; on a counter n below
      the maximum it returns n + 1. */
  lemma IncrCounts(s: map<string, Stored>, key: string)
    ensures key !in s ==> IncrStep(s, key) == Outcome(Ok(Count(1)), s[key := Counter(1)])
    ensures key in s && s[key].Counter? && s[key].n < Common.MaxInt64 ==>
      IncrStep(s, key) == Outcome(Ok(Count(s[key].n + 1)), s[key := Counter(s[key].n + 1)])
  {
  }

  /** Repeated incr on a fresh key returns 1, 2, 3, ... */
  function IncrTimes(s: map<string, Stored>, key: string, k: nat): Outcome
    decreases k
  {
    if k == 0 then Outcome(Ok(Count(0)), s)
    else IncrStep(IncrTimes(s, key, k - 1).entries, key)
  }

  lemma {:induction false} IncrFromFresh(s: map<string, Stored>, key: string, k: nat)
    requires key !in s && 0 < k <= Common.MaxInt64
    ensures IncrTimes(s, key, k) == Outcome(Ok(Count(k)), s[key := Counter(k)])
    decreases k
  {
    if k > 1 {
      IncrFromFresh(s, key, k - 1);
    }
  }

  /** The fixed command set of the connector. */
  datatype Command = Cache | Set | ChangeKey | Get | Incr | IncrBase64

  function CommandName(c: Command): string
  {
    match c
    case Cache => "cache"
    case Set => "set"
    case ChangeKey => "changekey"
    case Get => "get"
    case Incr => "incr"
    case IncrBase64 => "incr/base64"
  }

  function ToLowerChar(c: char): char
  {
    if 'A' <= c <= 'Z' then (c as int - 'A' as int + 'a' as int) as char else c
  }

  /** strings.ToLower, on ASCII letters: each character lowercased. */
  function ToLower(s: string): string
  {
    seq(|s|, i requires 0 <= i < |s| => ToLowerChar(s[i]))
  }

  /** The case of the switch a lowercased command string selects. */
  function CommandOf(lower: string): (r: Option<Command>)
    ensures forall c :: r == Some(c) <==> lower == CommandName(c)
  {
    match lower
    case "cache" => Some(Cache)
    case "set" => Some(Set)
    case "changekey" => Some(ChangeKey)
    case "get" => Some(Get)
    case "incr" => Some(Incr)
    case "incr/base64" => Some(IncrBase64)
    case _ => None
  }

  /** The switch over the lowercased command. */
  function SelectCommand(command: string): (r: Option<Command>)
    ensures forall c :: r == Some(c) <==> ToLower(command) == CommandName(c)
  {
    CommandOf(ToLower(command))
  }

  /** Commands that agree up to ASCII case select the same operation. */
  lemma SelectCommandCaseInsensitive(a: string, b: string)
    requires |a| == |b| && forall i | 0 <= i < |a| :: ToLowerChar(a[i]) == ToLowerChar(b[i])
    ensures SelectCommand(a) == SelectCommand(b)
  {
    assert ToLower(a) == ToLower(b);
  }

  /** Lowering a string is lowering each of its characters. */
  lemma LowerEach(s: string, t: string)
    requires |s| == |t| && forall i | 0 <= i < |s| :: ToLowerChar(s[i]) == t[i]
    ensures ToLower(s) == t
  {
  }

  lemma SelectGetUpper()
    ensures SelectCommand("GET") == Some(Get)
  {
    LowerEach("GET", "get");
  }

  lemma SelectIncrBase64Mixed()
    ensures SelectCommand("Incr/Base64") == Some(IncrBase64)
  {
    LowerEach("Incr/Base64", "incr/base64");
  }

  lemma SelectUnknown()
    ensures SelectCommand("frobnicate") == None
  {
    LowerEach("frobnicate", "frobnicate");
  }
}
