/** The document-store connector's result normaliser (`Neutralize`,
    `Unmarshal`, `UnmarshalArray`, `UnmarshalMap`, `UnmarshalDocument` in
    functions/mongo.go): driver containers become plain slices and maps,
    object ids become strings, and narrow numbers become float64. The
    functions `Normal*` define the result; the methods are the source's loops,
    proved to compute it. */
module MongoNormalize {
  import opened Dynamic
  import Failures

  /** The integer kinds Neutralize widens: int, int8, int16, int32, int64 and
      byte. The unsigned kinds uint16, uint32 and uint64 are not among them. */
  predicate IsWidenedKind(k: IntKind)
  {
    k == Int || k == Int8 || k == Int16 || k == Int32 || k == Int64 || k == Uint8
  }

  /** A value Neutralize converts to float64. */
  predicate IsNarrowNumber(v: Value)
  {
    (v.Integer? && IsWidenedKind(v.kind)) || v.F32?
  }

  function NumberValue(v: Value): real
    requires IsNarrowNumber(v)
  {
    if v.Integer? then v.i as real else v.f
  }

  /** Neutralize: the widening type switch. */
  function Neutralize(v: Value): (r: Value)
    ensures IsNarrowNumber(v) ==> r == F64(NumberValue(v))
    ensures !IsNarrowNumber(v) ==> r == v
    ensures !IsNarrowNumber(r)
  {
    match v
    case Integer(Int, i) => F64(i as real)
    case Integer(Int32, i) => F64(i as real)
    case Integer(Int64, i) => F64(i as real)
    case Integer(Int16, i) => F64(i as real)
    case Integer(Int8, i) => F64(i as real)
    case Integer(Uint8, i) => F64(i as real)
    case F32(f) => F64(f)
    case _ => v
  }

  /** Neutralize is idempotent. */
  lemma NeutralizeIdempotent(v: Value)
    ensures Neutralize(Neutralize(v)) == Neutralize(v)
  {
  }

  /** Lower-case hexadecimal, two digits per byte. */
  function Hex(id: seq<Byte>): (r: string)
    ensures |r| == 2 * |id|
  {
    if id == [] then ""
    else [Failures.HexDigit(id[0] / 16), Failures.HexDigit(id[0] % 16)] + Hex(id[1..])
  }

  /** ObjectID.String() of the driver: ObjectID("<hex>"). */
  function ObjectIdText(id: seq<Byte>): string
  {
    "ObjectID(\"" + Hex(id) + "\")"
  }

  lemma HexDigitInjective(m: nat, n: nat)
    requires m < 16 && n < 16
    ensures Failures.HexDigit(m) == Failures.HexDigit(n) <==> m == n
  {
  }

  /** A byte is determined by its two hexadecimal digits. */
  lemma HexByteInjective(x: Byte, y: Byte)
    requires Failures.HexDigit(x / 16) == Failures.HexDigit(y / 16)
    requires Failures.HexDigit(x % 16) == Failures.HexDigit(y % 16)
    ensures x == y
  {
    HexDigitInjective(x / 16, y / 16);
    HexDigitInjective(x % 16, y % 16);
  }

  /** Distinct byte strings have distinct hexadecimal forms. */
  lemma {:induction false} HexInjective(a: seq<Byte>, b: seq<Byte>)
    requires Hex(a) == Hex(b)
    ensures a == b
    decreases |a|
  {
    assert |a| == |b|;
    if a != [] {
      var ha, hb := Hex(a), Hex(b);
      assert ha == [Failures.HexDigit(a[0] / 16), Failures.HexDigit(a[0] % 16)] + Hex(a[1..]);
      assert hb == [Failures.HexDigit(b[0] / 16), Failures.HexDigit(b[0] % 16)] + Hex(b[1..]);
      assert ha[0] == hb[0] && ha[1] == hb[1];
      HexByteInjective(a[0], b[0]);
      assert ha[2..] == Hex(a[1..]) && hb[2..] == Hex(b[1..]);
      HexInjective(a[1..], b[1..]);
      assert a == [a[0]] + a[1..] && b == [b[0]] + b[1..];
    }
  }

  /** Distinct object ids get distinct string forms. */
  lemma ObjectIdTextInjective(a: seq<Byte>, b: seq<Byte>)
    ensures ObjectIdText(a) == ObjectIdText(b) <==> a == b
  {
    if ObjectIdText(a) == ObjectIdText(b) {
      var n := |"ObjectID(\""|;
      assert |Hex(a)| == |Hex(b)|;
      assert Hex(a) == ObjectIdText(a)[n..n + |Hex(a)|];
      assert Hex(b) == ObjectIdText(b)[n..n + |Hex(b)|];
      HexInjective(a, b);
    }
  }

  /** What Unmarshal returns for a value: the type switch over the driver's
      containers and object ids, Neutralize for everything else. */
  function Normal(v: Value): Value
    decreases v, 1
  {
    match v
    case BsonD(d) => Dict(NormalDocument(d))
    case BsonM(m) => NormalMap(m)
    case BsonA(a) => Slice(NormalArray(a))
    case ObjectId(id) => Str(ObjectIdText(id))
    case _ => Neutralize(v)
  }

  /** The elements UnmarshalArray appends, in order. */
  function NormalArray(a: seq<Value>): (r: seq<Value>)
    ensures |r| == |a|
    ensures forall i | 0 <= i < |a| :: r[i] == Normal(a[i])
    decreases a, 0
  {
    if a == [] then [] else NormalArray(a[..|a| - 1]) + [Normal(a[|a| - 1])]
  }

  /** UnmarshalMap's result: each value normalised under its own key. */
  function NormalMap(m: map<string, Value>): Value
    decreases BsonM(m), 0
  {
    Dict(map k | k in m :: Normal(m[k]))
  }

  /** The map UnmarshalDocument builds: the entries assigned in document
      order, so that a later entry overwrites an earlier one with its key. */
  function NormalDocument(d: seq<Elem>): map<string, Value>
    decreases d, 0
  {
    if d == [] then map[]
    else NormalDocument(d[..|d| - 1])[d[|d| - 1].key := Normal(d[|d| - 1].value)]
  }

  /** Unmarshal */
  method Unmarshal(v: Value) returns (r: Value)
    ensures r == Normal(v)
    decreases v, 1
  {
    match v
    case BsonD(d) =>
      r := UnmarshalDocument(d);
    case BsonM(m) =>
      r := UnmarshalMap(m);
    case BsonA(a) =>
      r := UnmarshalArray(a);
    case ObjectId(id) =>
      r := Str(ObjectIdText(id));
    case _ =>
      r := Neutralize(v);
  }

  /** UnmarshalArray: appends the normalised elements one by one. */
  method UnmarshalArray(data: seq<Value>) returns (r: Value)
    ensures r == Slice(NormalArray(data))
    decreases data, 0
  {
    var slice: seq<Value> := [];
    for i := 0 to |data|
      invariant slice == NormalArray(data[..i])
    {
      var value := Unmarshal(data[i]);
      assert data[..i + 1][..i] == data[..i];
      slice := slice + [value];
    }
    assert data[..|data|] == data;
    r := Slice(slice);
  }

  /** UnmarshalMap: assigns each normalised value under its key, in whatever
      order the keys are visited. */
  method UnmarshalMap(data: map<string, Value>) returns (r: Value)
    ensures r == NormalMap(data)
    decreases BsonM(data), 0
  {
    var mapper: map<string, Value> := map[];
    var remaining := data.Keys;
    while remaining != {}
      invariant remaining <= data.Keys
      invariant mapper == map k | k in data && k !in remaining :: Normal(data[k])
      decreases |remaining|
    {
      var key :| key in remaining;
      var value := Unmarshal(data[key]);
      mapper := mapper[key := value];
      remaining := remaining - {key};
    }
    r := Dict(mapper);
  }

  /** UnmarshalDocument: assigns each entry's normalised value under its key,
      in document order. */
  method UnmarshalDocument(document: seq<Elem>) returns (r: Value)
    ensures r == Dict(NormalDocument(document))
    decreases document, 0
  {
    var mapper: map<string, Value> := map[];
    for i := 0 to |document|
      invariant mapper == NormalDocument(document[..i])
    {
      var item := document[i];
      var value := Unmarshal(item.value);
      assert document[..i + 1][..i] == document[..i];
      mapper := mapper[item.key := value];
    }
    assert document[..|document|] == document;
    r := Dict(mapper);
  }

  /** The keys of a normalised document are the document's keys. */
  lemma {:induction false} DocumentKeys(d: seq<Elem>)
    ensures NormalDocument(d).Keys == set i | 0 <= i < |d| :: d[i].key
    decreases |d|
  {
    if d != [] {
      var init := d[..|d| - 1];
      DocumentKeys(init);
      assert forall i | 0 <= i < |init| :: init[i] == d[i];
      assert (set i | 0 <= i < |d| :: d[i].key) == (set i | 0 <= i < |init| :: init[i].key) + {d[|d| - 1].key};
    }
  }

  /** For a key that occurs several times, the last entry wins. */
  lemma {:induction false} DocumentLastWins(d: seq<Elem>, i: nat)
    requires i < |d|
    requires forall j | i < j < |d| :: d[j].key != d[i].key
    ensures d[i].key in NormalDocument(d)
    ensures NormalDocument(d)[d[i].key] == Normal(d[i].value)
    decreases |d|
  {
    if i < |d| - 1 {
      var init := d[..|d| - 1];
      assert forall j | 0 <= j < |init| :: init[j] == d[j];
      DocumentLastWins(init, i);
    }
  }

  /** A normalised bson.M has the same keys, each value normalised. */
  lemma MapShape(m: map<string, Value>)
    ensures Normal(BsonM(m)).Dict? && Normal(BsonM(m)).entries.Keys == m.Keys
    ensures forall k | k in m :: Normal(BsonM(m)).entries[k] == Normal(m[k])
  {
  }

  /** Plain slices and maps are not recursed into: they come back as they are,
      whatever they hold. */
  lemma PlainContainersUntouched(s: seq<Value>, m: map<string, Value>)
    ensures Normal(Slice(s)) == Slice(s)
    ensures Normal(Dict(m)) == Dict(m)
  {
  }

  /** The driver-specific shapes Normal never returns at the top level. */
  predicate IsDriverShape(v: Value)
  {
    v.BsonA? || v.BsonM? || v.BsonD? || v.ObjectId? || IsNarrowNumber(v)
  }

  /** A normalised value is never a driver container, an object id or a narrow
      number, and Normal leaves every such value as it is. */
  lemma NormalShape(v: Value)
    ensures !IsDriverShape(Normal(v))
    ensures !IsDriverShape(v) ==> Normal(v) == v
  {
  }

  /** Normalising twice is normalising once. */
  lemma NormalIdempotent(v: Value)
    ensures Normal(Normal(v)) == Normal(v)
  {
    NormalShape(v);
    NormalShape(Normal(v));
  }

  /** A value as the driver decodes it: arrays and documents are bson.A, bson.M
      or bson.D all the way down, never plain slices or maps. */
  predicate DriverValue(v: Value)
  {
    match v
    case Slice(_) => false
    case Dict(_) => false
    case BsonA(a) => forall i | 0 <= i < |a| :: DriverValue(a[i])
    case BsonM(m) => forall k | k in m :: DriverValue(m[k])
    case BsonD(d) => forall i | 0 <= i < |d| :: DriverValue(d[i].value)
    case _ => true
  }

  /** A value with no driver-specific shape at any depth: only strings, booleans,
      nil, float64, the unwidened integer kinds and other pass-through scalars,
      in slices and maps. */
  predicate Normalized(v: Value)
  {
    match v
    case Slice(s) => forall i | 0 <= i < |s| :: Normalized(s[i])
    case Dict(m) => forall k | k in m :: Normalized(m[k])
    case _ => !IsDriverShape(v)
  }

  /** Every value of a normalised document is the normalisation of a value of
      the document. */
  lemma {:induction false} DocumentNormalized(d: seq<Elem>)
    requires forall i | 0 <= i < |d| :: Normalized(Normal(d[i].value))
    ensures forall k | k in NormalDocument(d) :: Normalized(NormalDocument(d)[k])
    decreases |d|
  {
    if d != [] {
      var init := d[..|d| - 1];
      assert forall i | 0 <= i < |init| :: init[i] == d[i];
      DocumentNormalized(init);
    }
  }

  /** Normalising a driver value removes every driver-specific shape at every
      depth: all containers are plain slices and maps, all ids are strings and
      every widened number is a float64. */
  lemma {:induction false} DriverValueNormalized(v: Value)
    requires DriverValue(v)
    ensures Normalized(Normal(v))
    decreases v
  {
    match v
    case BsonA(a) =>
      forall i | 0 <= i < |a| ensures Normalized(NormalArray(a)[i]) {
        DriverValueNormalized(a[i]);
      }
    case BsonM(m) =>
      forall k | k in m ensures Normalized(Normal(m[k])) {
        DriverValueNormalized(m[k]);
      }
    case BsonD(d) =>
      forall i | 0 <= i < |d| ensures Normalized(Normal(d[i].value)) {
        DriverValueNormalized(d[i].value);
      }
      DocumentNormalized(d);
    case _ =>
  }

  /** {a: [1 as int32, "x", {b: 2.5}]} normalises to {a: [1.0, "x", {b: 2.5}]}. */
  lemma NestedExample()
    ensures Normal(BsonM(map["a" := BsonA([Integer(Int32, 1), Str("x"), BsonM(map["b" := F64(2.5)])])]))
      == Dict(map["a" := Slice([F64(1.0), Str("x"), Dict(map["b" := F64(2.5)])])])
  {
    var items := [Integer(Int32, 1), Str("x"), BsonM(map["b" := F64(2.5)])];
    var expected := [F64(1.0), Str("x"), Dict(map["b" := F64(2.5)])];
    InnerMapExample();
    var normal := NormalArray(items);
    assert normal[0] == expected[0] && normal[1] == expected[1] && normal[2] == expected[2];
    assert normal == expected;
    assert Normal(BsonA(items)) == Slice(expected);
    SingletonMap("a", BsonA(items));
  }

  lemma InnerMapExample()
    ensures Normal(BsonM(map["b" := F64(2.5)])) == Dict(map["b" := F64(2.5)])
  {
    SingletonMap("b", F64(2.5));
  }

  /** A one-entry bson.M normalises its one value. */
  lemma SingletonMap(k: string, v: Value)
    ensures Normal(BsonM(map[k := v])) == Dict(map[k := Normal(v)])
  {
    var m := map[k := v];
    assert (map j | j in m :: Normal(m[j])) == map[k := Normal(v)];
  }

  /** In a document, a repeated key keeps the last value. */
  lemma DuplicateKeyExample()
    ensures Normal(BsonD([Elem("n", Integer(Int64, 1)), Elem("n", Str("two"))])) == Dict(map["n" := Str("two")])
  {
    var d := [Elem("n", Integer(Int64, 1)), Elem("n", Str("two"))];
    assert d[..1] == [Elem("n", Integer(Int64, 1))];
    assert d[..1][..0] == [];
  }
}
