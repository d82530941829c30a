/** The argument-schema analyzer (functions/common.go). Go reads the fields of
    an argument struct and their `optional` and `position` tags by reflection;
    here a struct is given as the explicit sequence of its field descriptors,
    in declaration order. */
module Common {
  import opened Failures

  /** One struct field: its name and the values of its `optional` and
      `position` tags ("" when the tag is absent, as `Tag.Get` returns). */
  datatype FieldDesc = FieldDesc(name: string, optionalTag: string, positionTag: string)

  /** The analysis of an argument struct: how many fields are required, and the
      declared position of each optional field. */
  datatype Schema = Schema(required: nat, optional: map<string, int>)

  const MinInt64: int := -0x8000_0000_0000_0000
  const MaxInt64: int := 0x7fff_ffff_ffff_ffff

  /** Only the exact tag value "true" marks a field optional. */
  predicate IsOptional(f: FieldDesc)
  {
    f.optionalTag == "true"
  }

  predicate IsDigit(c: char)
  {
    '0' <= c <= '9'
  }

  predicate AllDigits(s: string)
  {
    forall i | 0 <= i < |s| :: IsDigit(s[i])
  }

  /** The value of a string of decimal digits, most significant first. */
  function DigitsValue(s: string): nat
    requires AllDigits(s)
    decreases |s|
  {
    if s == [] then 0
    else DigitsValue(s[..|s| - 1]) * 10 + (s[|s| - 1] as int - '0' as int)
  }

  /** One or more decimal digits. */
  predicate IsDecimal(s: string)
  {
    s != [] && AllDigits(s)
  }

  /** The syntax strconv.Atoi accepts: an optional sign, then digits. */
  predicate IsInteger(s: string)
  {
    IsDecimal(s) || (|s| > 0 && (s[0] == '+' || s[0] == '-') && IsDecimal(s[1..]))
  }

  /** strconv.Atoi on a 64-bit platform: an optional sign, then at least one
      decimal digit, and a value that fits in an int. */
  function Atoi(s: string): (r: Result<int>)
    ensures r.Ok? ==> MinInt64 <= r.value <= MaxInt64
    ensures r.Err? ==> r.error.BadPosition? && r.error.input == s
    ensures !IsInteger(s) ==> r == Err(BadPosition(s, InvalidSyntax))
    ensures IsDecimal(s) ==>
      r == if DigitsValue(s) <= MaxInt64 then Ok(DigitsValue(s)) else Err(BadPosition(s, OutOfRange))
    ensures |s| > 0 && s[0] == '+' && IsDecimal(s[1..]) ==>
      r == if DigitsValue(s[1..]) <= MaxInt64 then Ok(DigitsValue(s[1..])) else Err(BadPosition(s, OutOfRange))
    ensures |s| > 0 && s[0] == '-' && IsDecimal(s[1..]) ==>
      var v: int := DigitsValue(s[1..]);
      r == if v <= -MinInt64 then Ok(-v) else Err(BadPosition(s, OutOfRange))
  {
    var signed := |s| > 0 && (s[0] == '+' || s[0] == '-');
    var body := if signed then s[1..] else s;
    if body == [] || !AllDigits(body) then Err(BadPosition(s, InvalidSyntax))
    else
      var v: int := if signed && s[0] == '-' then 0 - DigitsValue(body) else DigitsValue(body);
      if v < MinInt64 || v > MaxInt64 then Err(BadPosition(s, OutOfRange)) else Ok(v)
  }

  /** Signed and unsigned tags parse to their values; a sign alone, a space
      or a letter is a syntax error; 2^63 is out of range, -2^63 is not. */
  lemma AtoiExamples()
    ensures Atoi("3") == Ok(3) && Atoi("+3") == Ok(3) && Atoi("-3") == Ok(-3)
    ensures Atoi("-") == Err(BadPosition("-", InvalidSyntax))
    ensures Atoi(" 3") == Err(BadPosition(" 3", InvalidSyntax))
    ensures Atoi("3a") == Err(BadPosition("3a", InvalidSyntax))
  {
    assert DigitsValue("3") == 3;
    assert "+3"[1..] == "3" && "-3"[1..] == "3";
    assert !IsDigit("3a"[1]);
  }

  /** The error, if any, that a single field makes the analyzer return. */
  function FieldFailure(f: FieldDesc): Option<Failure>
  {
    if !IsOptional(f) then None
    else if f.positionTag == "" then Some(MissingPosition)
    else if Atoi(f.positionTag).Err? then Some(Atoi(f.positionTag).error)
    else None
  }

  /** One iteration of the analyzer's loop over a field. */
  function Step(s: Schema, f: FieldDesc): Result<Schema>
  {
    if !IsOptional(f) then Ok(Schema(s.required + 1, s.optional))
    else if f.positionTag == "" then Err(MissingPosition)
    else match Atoi(f.positionTag)
      case Err(e) => Err(e)
      case Ok(p) => Ok(Schema(s.required, s.optional[f.name := p]))
  }

  /** The analysis of the fields in declaration order, stopping at the first
      field that fails. */
  function Analysis(fields: seq<FieldDesc>): Result<Schema>
    decreases |fields|
  {
    if fields == [] then Ok(Schema(0, map[]))
    else match Analysis(fields[..|fields| - 1])
      case Err(e) => Err(e)
      case Ok(s) => Step(s, fields[|fields| - 1])
  }

  /** ArgStructAnalyzer: counts the required fields and records the position of
      each optional one; the first misconfigured optional field aborts it. */
  method AnalyzeFields(fields: seq<FieldDesc>) returns (r: Result<Schema>)
    ensures r == Analysis(fields)
  {
    var optionalFields: map<string, int> := map[];
    var count: nat := 0;
    for i := 0 to |fields|
      invariant Analysis(fields[..i]) == Ok(Schema(count, optionalFields))
    {
      var field := fields[i];
      assert fields[..i + 1][..i] == fields[..i];
      if field.optionalTag != "true" {
        count := count + 1;
        continue;
      }
      var pos := field.positionTag;
      if |pos| == 0 {
        ErrorPersists(fields, i + 1);
        return Err(MissingPosition);
      }
      var posInt := Atoi(pos);
      if posInt.Err? {
        ErrorPersists(fields, i + 1);
        return Err(posInt.error);
      }
      optionalFields := optionalFields[field.name := posInt.value];
    }
    assert fields[..|fields|] == fields;
    return Ok(Schema(count, optionalFields));
  }

  /** Once a prefix of the fields fails, the whole analysis fails the same way. */
  lemma {:induction false} ErrorPersists(fields: seq<FieldDesc>, k: nat)
    requires k <= |fields| && Analysis(fields[..k]).Err?
    ensures Analysis(fields) == Analysis(fields[..k])
    decreases |fields| - k
  {
    if k < |fields| {
      assert fields[..k + 1][..k] == fields[..k];
      ErrorPersists(fields, k + 1);
    } else {
      assert fields[..k] == fields;
    }
  }

  /** The number of fields not tagged optional, counted from the front. */
  function RequiredCount(fields: seq<FieldDesc>): nat
  {
    if fields == [] then 0
    else (if IsOptional(fields[0]) then 0 else 1) + RequiredCount(fields[1..])
  }

  /** The number of fields tagged optional, counted from the front. */
  function OptionalCount(fields: seq<FieldDesc>): nat
  {
    if fields == [] then 0
    else (if IsOptional(fields[0]) then 1 else 0) + OptionalCount(fields[1..])
  }

  /** The names of the optional fields. */
  function OptionalNames(fields: seq<FieldDesc>): set<string>
  {
    set i | 0 <= i < |fields| && IsOptional(fields[i]) :: fields[i].name
  }

  /** Go struct field names are distinct. */
  predicate DistinctNames(fields: seq<FieldDesc>)
  {
    forall i, j | 0 <= i < j < |fields| :: fields[i].name != fields[j].name
  }

  lemma {:induction false} RequiredCountSnoc(fields: seq<FieldDesc>, f: FieldDesc)
    ensures RequiredCount(fields + [f]) == RequiredCount(fields) + (if IsOptional(f) then 0 else 1)
    ensures OptionalCount(fields + [f]) == OptionalCount(fields) + (if IsOptional(f) then 1 else 0)
    decreases |fields|
  {
    if fields == [] {
      assert [f][1..] == [];
    } else {
      assert (fields + [f])[1..] == fields[1..] + [f];
      RequiredCountSnoc(fields[1..], f);
    }
  }

  /** The analysis succeeds exactly when every optional field carries a
      position tag that parses as an integer. */
  lemma {:induction false} AnalysisSucceedsIff(fields: seq<FieldDesc>)
    ensures Analysis(fields).Ok? <==> forall i | 0 <= i < |fields| :: FieldFailure(fields[i]).None?
    decreases |fields|
  {
    if fields != [] {
      var init := fields[..|fields| - 1];
      AnalysisSucceedsIff(init);
      assert forall i | 0 <= i < |init| :: init[i] == fields[i];
    }
  }

  /** On failure, the error is the one of the first bad field in declaration
      order; no partial count or map is returned. */
  lemma {:induction false} AnalysisFirstFailure(fields: seq<FieldDesc>, i: nat)
    requires i < |fields| && FieldFailure(fields[i]).Some?
    requires forall j | 0 <= j < i :: FieldFailure(fields[j]).None?
    ensures Analysis(fields) == Err(FieldFailure(fields[i]).value)
    decreases |fields|
  {
    var init := fields[..|fields| - 1];
    if i < |fields| - 1 {
      AnalysisFirstFailure(init, i);
    } else {
      assert forall j | 0 <= j < |init| :: init[j] == fields[j];
      AnalysisSucceedsIff(init);
    }
  }

  /** On success, the required count is the number of fields not tagged
      optional, and the map has exactly the optional fields' names as keys. */
  lemma {:induction false} AnalysisCounts(fields: seq<FieldDesc>)
    requires Analysis(fields).Ok?
    ensures Analysis(fields).value.required == RequiredCount(fields)
    ensures Analysis(fields).value.optional.Keys == OptionalNames(fields)
    decreases |fields|
  {
    if fields != [] {
      var init := fields[..|fields| - 1];
      var last := fields[|fields| - 1];
      AnalysisCounts(init);
      assert init + [last] == fields;
      RequiredCountSnoc(init, last);
      assert forall k | 0 <= k < |init| :: init[k] == fields[k];
      if IsOptional(last) {
        assert OptionalNames(fields) == OptionalNames(init) + {last.name};
      } else {
        assert OptionalNames(fields) == OptionalNames(init);
      }
    }
  }

  /** On success, each optional field (names being distinct) maps to the
      integer its position tag denotes. */
  lemma {:induction false} AnalysisPositions(fields: seq<FieldDesc>, i: nat)
    requires DistinctNames(fields) && Analysis(fields).Ok?
    requires i < |fields| && IsOptional(fields[i])
    ensures Atoi(fields[i].positionTag).Ok?
    ensures fields[i].name in Analysis(fields).value.optional
    ensures Analysis(fields).value.optional[fields[i].name] == Atoi(fields[i].positionTag).value
    decreases |fields|
  {
    var init := fields[..|fields| - 1];
    assert forall k | 0 <= k < |init| :: init[k] == fields[k];
    if i < |fields| - 1 {
      AnalysisPositions(init, i);
    }
  }

  /** Every field is counted exactly once, as required or as optional. */
  lemma {:induction false} CountsCoverFields(fields: seq<FieldDesc>)
    ensures RequiredCount(fields) + OptionalCount(fields) == |fields|
    decreases |fields|
  {
    if fields != [] {
      CountsCoverFields(fields[1..]);
    }
  }

  /** With distinct names, the optional map has one entry per optional field. */
  lemma {:induction false} AnalysisOptionalSize(fields: seq<FieldDesc>)
    requires DistinctNames(fields) && Analysis(fields).Ok?
    ensures |Analysis(fields).value.optional| == OptionalCount(fields)
    decreases |fields|
  {
    if fields != [] {
      var init := fields[..|fields| - 1];
      var last := fields[|fields| - 1];
      assert forall k | 0 <= k < |init| :: init[k] == fields[k];
      assert init + [last] == fields;
      RequiredCountSnoc(init, last);
      AnalysisOptionalSize(init);
      if IsOptional(last) {
        AnalysisCounts(init);
        assert last.name !in OptionalNames(init);
      }
    }
  }

  /** On success, with distinct names, the fields are partitioned: the required
      count plus the number of optional entries is the number of fields, and no
      required field appears in the map. */
  lemma {:induction false} AnalysisPartition(fields: seq<FieldDesc>)
    requires DistinctNames(fields) && Analysis(fields).Ok?
    ensures Analysis(fields).value.required + |Analysis(fields).value.optional| == |fields|
    ensures forall i | 0 <= i < |fields| && !IsOptional(fields[i]) ::
      fields[i].name !in Analysis(fields).value.optional
  {
    AnalysisCounts(fields);
    AnalysisOptionalSize(fields);
    CountsCoverFields(fields);
  }
}
