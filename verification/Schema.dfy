/** Casting and validating tool parameters against a JSON schema. */
module Schema {
  import opened Prelude

  /** A decoded JSON value; integers are int64 and floats are reals. */
  datatype Value =
    | Null
    | Bool(b: bool)
    | Int(i: int)
    | Float(f: real)
    | Str(s: string)
    | Arr(items: seq<Value>)
    | Obj(members: map<string, Value>)

  datatype Items = NoItems | Each(schema: Schema)

  /** The keywords that are read; ill-typed keywords count as absent, and so do properties that are not objects. */
  datatype Schema = Schema(typ: string, enum: Option<seq<Value>>, minimum: Option<Value>, maximum: Option<Value>,
                           minLength: Option<int>, maxLength: Option<int>, required: seq<string>,
                           props: map<string, Schema>, items: Items)

  /** Library conversions between text and values. */
  datatype Formats = Formats(parseInt: string -> Option<int>, parseFloat: string -> Option<real>,
                             sprint: Value -> string, toLower: string -> string)

  /** Survives a conversion to int64 and back. */
  predicate IsWhole(f: real) {
    f == f.Floor as real && MIN_INT64 <= f.Floor <= MAX_INT64
  }

  predicate IsInteger(v: Value) {
    v.Int? || (v.Float? && IsWhole(v.f))
  }

  predicate IsNumber(v: Value) {
    v.Int? || v.Float?
  }

  /** Anything that is not a number compares as zero. */
  function ToReal(v: Value): real {
    match v
    case Int(i) => i as real
    case Float(f) => f
    case _ => 0.0
  }

  // ----- casting -----

  function CastBoolean(t: Formats, v: Value): Value {
    if v.Str? && t.toLower(v.s) in ["true", "1", "yes"] then Bool(true)
    else if v.Str? && t.toLower(v.s) in ["false", "0", "no"] then Bool(false)
    else v
  }

  function CastInteger(t: Formats, v: Value): Value {
    match v
    case Float(f) => if IsWhole(f) then Int(f.Floor) else v
    case Str(s) => (match t.parseInt(s) case Some(i) => Int(i) case None => v)
    case _ => v
  }

  function CastNumber(t: Formats, v: Value): Value {
    match v
    case Str(s) => (match t.parseFloat(s) case Some(f) => Float(f) case None => v)
    case _ => v
  }

  function CastString(t: Formats, v: Value): Value {
    if v.Null? || v.Str? then v else Str(t.sprint(v))
  }

  function Cast(t: Formats, v: Value, s: Schema): Value
    decreases s, 1
  {
    if s.typ == "boolean" then CastBoolean(t, v)
    else if s.typ == "integer" then CastInteger(t, v)
    else if s.typ == "number" then CastNumber(t, v)
    else if s.typ == "string" then CastString(t, v)
    else if s.typ == "array" then
      if v.Arr? && s.items.Each? then Arr(seq(|v.items|, (i: nat) requires i < |v.items| => Cast(t, v.items[i], s.items.schema)))
      else v
    else if s.typ == "object" then
      if v.Obj? then Obj(CastMembers(t, v.members, s)) else v
    else v
  }

  function CastMembers(t: Formats, members: map<string, Value>, s: Schema): map<string, Value>
    decreases s, 0
  {
    map k | k in members :: if k in s.props then Cast(t, members[k], s.props[k]) else members[k]
  }

  method CastObject(t: Formats, members: map<string, Value>, s: Schema) returns (out: map<string, Value>)
    ensures out == CastMembers(t, members, s)
    decreases s, 0
  {
    out := map[];
    var keys := members.Keys;
    while keys != {}
      invariant keys <= members.Keys && out.Keys == members.Keys - keys
      invariant forall k | k in out :: out[k] == CastMembers(t, members, s)[k]
      decreases |keys|
    {
      var k :| k in keys;
      keys := keys - {k};
      if k in s.props {
        var v := CastValue(t, members[k], s.props[k]);
        out := out[k := v];
      } else {
        out := out[k := members[k]];
      }
    }
  }

  method CastList(t: Formats, items: seq<Value>, s: Schema) returns (out: seq<Value>)
    ensures |out| == |items| && forall i | 0 <= i < |items| :: out[i] == Cast(t, items[i], s)
    decreases s, 2
  {
    out := [];
    for i := 0 to |items|
      invariant |out| == i && forall k | 0 <= k < i :: out[k] == Cast(t, items[k], s)
    {
      var v := CastValue(t, items[i], s);
      out := out + [v];
    }
  }

  method CastValue(t: Formats, v: Value, s: Schema) returns (r: Value)
    ensures r == Cast(t, v, s)
    decreases s, 1
  {
    if s.typ == "boolean" {
      r := CastBoolean(t, v);
    } else if s.typ == "integer" {
      r := CastInteger(t, v);
    } else if s.typ == "number" {
      r := CastNumber(t, v);
    } else if s.typ == "string" {
      r := CastString(t, v);
    } else if s.typ == "array" && v.Arr? && s.items.Each? {
      var out := CastList(t, v.items, s.items.schema);
      r := Arr(out);
      assert out == Cast(t, v, s).items;
    } else if s.typ == "object" && v.Obj? {
      var out := CastObject(t, v.members, s);
      r := Obj(out);
    } else {
      r := v;
    }
  }

  /** A schema of another type than object leaves the parameters alone. */
  method CastParams(t: Formats, params: map<string, Value>, schema: Option<Schema>) returns (out: map<string, Value>)
    ensures out.Keys == params.Keys
    ensures schema.Some? && schema.value.typ in ["", "object"] ==> out == CastMembers(t, params, schema.value)
    ensures schema.None? || schema.value.typ !in ["", "object"] ==> out == params
  {
    if schema.None? {
      return params;
    }
    if schema.value.typ != "" && schema.value.typ != "object" {
      return params;
    }
    out := CastObject(t, params, schema.value);
  }

  // ----- conformance -----

  predicate TypeFits(v: Value, typ: string) {
    && (typ == "integer" ==> IsInteger(v))
    && (typ == "number" ==> IsNumber(v))
    && (typ == "boolean" ==> v.Bool?)
    && (typ == "string" ==> v.Str?)
    && (typ == "array" ==> v.Arr?)
    && (typ == "object" ==> v.Obj?)
  }

  predicate InEnum(v: Value, s: Schema) {
    s.enum.Some? ==> v in s.enum.value
  }

  predicate InRange(v: Value, s: Schema) {
    s.typ == "integer" || s.typ == "number" ==>
      && (s.minimum.Some? ==> ToReal(v) >= ToReal(s.minimum.value))
      && (s.maximum.Some? ==> ToReal(v) <= ToReal(s.maximum.value))
  }

  predicate LengthFits(v: Value, s: Schema) {
    s.typ == "string" && v.Str? ==>
      && (s.minLength.Some? ==> |v.s| >= s.minLength.value)
      && (s.maxLength.Some? ==> |v.s| <= s.maxLength.value)
  }

  /** The value fits the schema at every depth. */
  predicate Conforms(v: Value, s: Schema)
    decreases s
  {
    && TypeFits(v, s.typ) && InEnum(v, s) && InRange(v, s) && LengthFits(v, s)
    && (s.typ == "object" && v.Obj? ==>
          && (forall k | k in s.required :: k in v.members)
          && forall k | k in s.props && k in v.members :: Conforms(v.members[k], s.props[k]))
    && (s.typ == "array" && v.Arr? && s.items.Each? ==>
          forall i | 0 <= i < |v.items| :: Conforms(v.items[i], s.items.schema))
  }

  // ----- validation -----

  function Join(path: string, key: string): string {
    if path == "" then key else path + "." + key
  }

  method TypeError(v: Value, typ: string, place: string) returns (errors: seq<string>)
    ensures errors == [] <==> TypeFits(v, typ)
    ensures |errors| <= 1
  {
    errors := [];
    if typ == "integer" {
      if !IsInteger(v) {
        errors := [place + " should be integer"];
      }
    } else if typ == "number" {
      if !IsNumber(v) {
        errors := [place + " should be number"];
      }
    } else if typ == "boolean" {
      if !v.Bool? {
        errors := [place + " should be boolean"];
      }
    } else if typ == "string" {
      if !v.Str? {
        errors := [place + " should be string"];
      }
    } else if typ == "array" {
      if !v.Arr? {
        errors := [place + " should be array"];
      }
    } else if typ == "object" {
      if !v.Obj? {
        errors := [place + " should be object"];
      }
    }
  }

  method EnumErrors(t: Formats, v: Value, s: Schema, place: string) returns (errors: seq<string>)
    ensures errors == [] <==> InEnum(v, s)
  {
    errors := [];
    if s.enum.Some? {
      var found := false;
      for i := 0 to |s.enum.value|
        invariant !found && v !in s.enum.value[..i]
      {
        if s.enum.value[i] == v {
          found := true;
          break;
        }
      }
      if !found {
        errors := [place + " must be one of " + t.sprint(Arr(s.enum.value))];
      }
    }
  }

  method RangeErrors(t: Formats, v: Value, s: Schema, place: string) returns (errors: seq<string>)
    ensures errors == [] <==> InRange(v, s)
  {
    errors := [];
    if s.typ == "integer" || s.typ == "number" {
      if s.minimum.Some? && ToReal(v) < ToReal(s.minimum.value) {
        errors := errors + [place + " must be >= " + t.sprint(s.minimum.value)];
      }
      if s.maximum.Some? && ToReal(v) > ToReal(s.maximum.value) {
        errors := errors + [place + " must be <= " + t.sprint(s.maximum.value)];
      }
    }
  }

  method LengthErrors(t: Formats, v: Value, s: Schema, place: string) returns (errors: seq<string>)
    ensures errors == [] <==> LengthFits(v, s)
  {
    errors := [];
    if s.typ == "string" && v.Str? {
      if s.minLength.Some? && |v.s| < s.minLength.value {
        errors := errors + [place + " must be at least " + t.sprint(Int(s.minLength.value)) + " chars"];
      }
      if s.maxLength.Some? && |v.s| > s.maxLength.value {
        errors := errors + [place + " must be at most " + t.sprint(Int(s.maxLength.value)) + " chars"];
      }
    }
  }

  /** One error for each required key that is missing. */
  method MissingErrors(members: map<string, Value>, required: seq<string>, path: string) returns (errors: seq<string>)
    ensures errors == [] <==> forall k | k in required :: k in members
  {
    errors := [];
    for i := 0 to |required|
      invariant errors == [] <==> forall k | k in required[..i] :: k in members
    {
      assert required[..i + 1] == required[..i] + [required[i]];
      assert required[i] in required[..i + 1];
      if required[i] !in members {
        errors := errors + ["missing required " + Join(path, required[i])];
      }
    }
    assert required[..|required|] == required;
  }

  method MemberErrors(t: Formats, members: map<string, Value>, s: Schema, path: string) returns (errors: seq<string>)
    ensures errors == [] <==> forall k | k in s.props && k in members :: Conforms(members[k], s.props[k])
    decreases s, 0
  {
    errors := [];
    var keys := members.Keys;
    while keys != {}
      invariant keys <= members.Keys
      invariant errors == [] <==> forall k | k in s.props && k in members && k !in keys :: Conforms(members[k], s.props[k])
      decreases |keys|
    {
      var k :| k in keys;
      keys := keys - {k};
      if k in s.props {
        var sub := Validate(t, members[k], s.props[k], Join(path, k));
        errors := errors + sub;
      }
    }
  }

  method ItemErrors(t: Formats, items: seq<Value>, s: Schema, path: string) returns (errors: seq<string>)
    ensures errors == [] <==> forall i | 0 <= i < |items| :: Conforms(items[i], s)
    decreases s, 2
  {
    errors := [];
    for i := 0 to |items|
      invariant errors == [] <==> forall k | 0 <= k < i :: Conforms(items[k], s)
    {
      var sub := Validate(t, items[i], s, path + "[" + t.sprint(Int(i)) + "]");
      errors := errors + sub;
    }
  }

  /** No errors exactly when the value conforms; a value of the wrong type gets that one error only. */
  method Validate(t: Formats, v: Value, s: Schema, path: string) returns (errors: seq<string>)
    ensures errors == [] <==> Conforms(v, s)
    ensures !TypeFits(v, s.typ) ==> |errors| == 1
    decreases s, 1
  {
    var place := if path == "" then "parameter" else path;
    errors := TypeError(v, s.typ, place);
    if errors != [] {
      return;
    }
    var more := EnumErrors(t, v, s, place);
    errors := errors + more;
    more := RangeErrors(t, v, s, place);
    errors := errors + more;
    more := LengthErrors(t, v, s, place);
    errors := errors + more;
    if s.typ == "object" {
      more := MissingErrors(v.members, s.required, path);
      errors := errors + more;
      more := MemberErrors(t, v.members, s, path);
      errors := errors + more;
    }
    if s.typ == "array" && s.items.Each? {
      more := ItemErrors(t, v.items, s.items.schema, path);
      errors := errors + more;
    }
  }

  const ANYTHING := Schema("", None, None, None, None, None, [], map[], NoItems)

  datatype Verdict = Errors(errors: seq<string>) | Panic

  /** The top level is validated as an object; a schema of another type panics. */
  method ValidateParams(t: Formats, params: Option<map<string, Value>>, schema: Option<Schema>) returns (verdict: Verdict)
    ensures verdict == Panic <==> params.Some? && schema.Some? && schema.value.typ !in ["", "object"]
    ensures verdict.Errors? ==>
      (verdict.errors == [] <==> params.Some? && Conforms(Obj(params.value), schema.GetOr(ANYTHING).(typ := "object")))
  {
    if params.None? {
      return Errors(["parameters must be an object"]);
    }
    var s := schema.GetOr(ANYTHING);
    if s.typ != "" && s.typ != "object" {
      return Panic;
    }
    var errors := Validate(t, Obj(params.value), s.(typ := "object"), "");
    verdict := Errors(errors);
  }

  // ----- what a cast gives -----

  /** A text becomes what the schema asks for when it reads as that, and stays a text otherwise. */
  lemma TextIsCastExactly(t: Formats, text: string, s: Schema)
    ensures s.typ == "boolean" && t.toLower(text) in ["true", "1", "yes"] ==> Cast(t, Str(text), s) == Bool(true)
    ensures s.typ == "boolean" && t.toLower(text) in ["false", "0", "no"] ==> Cast(t, Str(text), s) == Bool(false)
    ensures s.typ == "boolean" && t.toLower(text) !in ["true", "1", "yes", "false", "0", "no"] ==> Cast(t, Str(text), s) == Str(text)
    ensures s.typ == "integer" && t.parseInt(text).Some? ==> Cast(t, Str(text), s) == Int(t.parseInt(text).value)
    ensures s.typ == "number" && t.parseFloat(text).Some? ==> Cast(t, Str(text), s) == Float(t.parseFloat(text).value)
    ensures (s.typ == "integer" && t.parseInt(text).None?) || (s.typ == "number" && t.parseFloat(text).None?) ==>
              Cast(t, Str(text), s) == Str(text)
    ensures s.typ !in ["boolean", "integer", "number"] ==> Cast(t, Str(text), s) == Str(text)
  {
  }

  /** Of the other scalars only floats change where an integer is asked for; where text is, all but null is printed. */
  lemma ScalarIsCastExactly(t: Formats, v: Value, s: Schema)
    requires !v.Str? && !v.Arr? && !v.Obj?
    ensures s.typ == "integer" && Cast(t, v, s) != v ==>
              v.Float? && v.f == v.f.Floor as real && -0x8000_0000_0000_0000 <= v.f.Floor <= 0x7FFF_FFFF_FFFF_FFFF
    ensures s.typ == "string" && v != Null ==> Cast(t, v, s) == Str(t.sprint(v))
    ensures s.typ == "string" && v == Null ==> Cast(t, v, s) == Null
    ensures s.typ !in ["integer", "string"] ==> Cast(t, v, s) == v
  {
  }

  /** A whole float becomes its integer exactly when that is an int64. */
  lemma WholeFloatIsCastExactly(t: Formats, i: int, s: Schema)
    requires s.typ == "integer"
    ensures Cast(t, Float(i as real), s) ==
            if -0x8000_0000_0000_0000 <= i <= 0x7FFF_FFFF_FFFF_FFFF then Int(i) else Float(i as real)
  {
    assert (i as real).Floor == i;
  }

  /** Arrays and objects are cast part by part, by the schema of each part, where the schema asks for them. */
  lemma PartsAreCastExactly(t: Formats, v: Value, s: Schema)
    ensures v.Arr? && s.typ == "array" && s.items.Each? ==>
              && Cast(t, v, s).Arr? && |Cast(t, v, s).items| == |v.items|
              && forall i | 0 <= i < |v.items| :: Cast(t, v, s).items[i] == Cast(t, v.items[i], s.items.schema)
    ensures v.Obj? && s.typ == "object" ==>
              && Cast(t, v, s).Obj? && Cast(t, v, s).members.Keys == v.members.Keys
              && (forall k | k in v.members && k in s.props :: Cast(t, v, s).members[k] == Cast(t, v.members[k], s.props[k]))
              && (forall k | k in v.members && k !in s.props :: Cast(t, v, s).members[k] == v.members[k])
    ensures (v.Arr? || v.Obj?) && s.typ == "string" ==> Cast(t, v, s) == Str(t.sprint(v))
    ensures v.Arr? && s.typ != "string" && !(s.typ == "array" && s.items.Each?) ==> Cast(t, v, s) == v
    ensures v.Obj? && s.typ != "string" && s.typ != "object" ==> Cast(t, v, s) == v
  {
  }

  // ----- what conforms -----

  /** A number: one in range, whole where an integer is asked for; bounds that are no numbers count as zero. */
  lemma NumberConformsExactly(v: Value, s: Schema)
    requires s.typ == "integer" || s.typ == "number"
    ensures Conforms(v, s) <==>
      && (v.Int? || v.Float?) && (s.enum.Some? ==> v in s.enum.value)
      && (s.typ == "integer" && v.Float? ==>
            v.f == v.f.Floor as real && -0x8000_0000_0000_0000 <= v.f.Floor <= 0x7FFF_FFFF_FFFF_FFFF)
      && (s.minimum.Some? ==> AsReal(v) >= AsReal(s.minimum.value))
      && (s.maximum.Some? ==> AsReal(v) <= AsReal(s.maximum.value))
  {
  }

  /** The amount of a number. */
  function AsReal(v: Value): (r: real)
    ensures v.Int? ==> r == v.i as real
    ensures v.Float? ==> r == v.f
    ensures !v.Int? && !v.Float? ==> r == 0.0
  {
    ToReal(v)
  }

  /** Texts within the lengths, booleans, and, where no known type is asked for, anything; always from the enum, if there is one. */
  lemma ScalarConformsExactly(v: Value, s: Schema)
    ensures s.typ == "string" ==>
      (Conforms(v, s) <==>
        && v.Str? && (s.enum.Some? ==> v in s.enum.value)
        && (s.minLength.Some? ==> |v.s| >= s.minLength.value) && (s.maxLength.Some? ==> |v.s| <= s.maxLength.value))
    ensures s.typ == "boolean" ==> (Conforms(v, s) <==> v.Bool? && (s.enum.Some? ==> v in s.enum.value))
    ensures s.typ !in ["integer", "number", "string", "boolean", "array", "object"] ==>
      (Conforms(v, s) <==> (s.enum.Some? ==> v in s.enum.value))
  {
  }

  /** An array whose entries conform, and an object with all required members whose listed members conform. */
  lemma PartsConformExactly(v: Value, s: Schema)
    ensures s.typ == "array" ==>
      (Conforms(v, s) <==>
        && v.Arr? && (s.enum.Some? ==> v in s.enum.value)
        && (s.items.Each? ==> forall i | 0 <= i < |v.items| :: Conforms(v.items[i], s.items.schema)))
    ensures s.typ == "object" ==>
      (Conforms(v, s) <==>
        && v.Obj? && (s.enum.Some? ==> v in s.enum.value)
        && (forall k | k in s.required :: k in v.members)
        && forall k | k in s.props && k in v.members :: Conforms(v.members[k], s.props[k]))
  {
  }

  // ----- casting keeps what is there -----

  /** Objects keep exactly their keys and arrays their length, unless the schema asks for text. */
  lemma CastKeepsShape(t: Formats, v: Value, s: Schema)
    ensures v.Obj? && s.typ != "string" ==> Cast(t, v, s).Obj? && Cast(t, v, s).members.Keys == v.members.Keys
    ensures v.Arr? && s.typ != "string" ==> Cast(t, v, s).Arr? && |Cast(t, v, s).items| == |v.items|
  {
  }

  /** Casting twice is casting once, whatever the text conversions do. */
  lemma {:induction false} CastIsIdempotent(t: Formats, v: Value, s: Schema)
    ensures Cast(t, Cast(t, v, s), s) == Cast(t, v, s)
    decreases s
  {
    if s.typ == "array" && v.Arr? && s.items.Each? {
      var once := Cast(t, v, s);
      forall i | 0 <= i < |v.items| ensures Cast(t, once, s).items[i] == once.items[i] {
        CastIsIdempotent(t, v.items[i], s.items.schema);
      }
      assert Cast(t, once, s).items == once.items;
    } else if s.typ == "object" && v.Obj? {
      var once := CastMembers(t, v.members, s);
      forall k | k in v.members ensures CastMembers(t, once, s)[k] == once[k] {
        if k in s.props {
          CastIsIdempotent(t, v.members[k], s.props[k]);
        }
      }
      assert CastMembers(t, once, s) == once;
    }
  }

  // ----- casting keeps conforming values conforming -----

  /** Every conforming value still conforms after the cast. */
  ghost predicate KeepsConforming(t: Formats, s: Schema) {
    forall v :: Conforms(v, s) ==> Conforms(Cast(t, v, s), s)
  }

  /** The enum lists, with each of its conforming entries, what the cast makes of that entry. */
  predicate EnumIsClosed(t: Formats, s: Schema) {
    s.enum.Some? ==> forall e | e in s.enum.value && Conforms(e, s) :: Cast(t, e, s) in s.enum.value
  }

  ghost predicate PartsKeepConforming(t: Formats, s: Schema) {
    (forall k | k in s.props :: KeepsConforming(t, s.props[k])) && (s.items.Each? ==> KeepsConforming(t, s.items.schema))
  }

  /** The cast can only break the enum of the node itself. */
  lemma CastKeepsTheRest(t: Formats, v: Value, s: Schema)
    requires PartsKeepConforming(t, s) && Conforms(v, s)
    ensures Conforms(Cast(t, v, s), s) <==> InEnum(Cast(t, v, s), s)
  {
    var r := Cast(t, v, s);
    if s.typ == "array" && s.items.Each? {
      forall i | 0 <= i < |v.items| ensures Conforms(r.items[i], s.items.schema) {
        assert Conforms(v.items[i], s.items.schema) && r.items[i] == Cast(t, v.items[i], s.items.schema);
      }
    } else if s.typ == "object" {
      assert r.members == CastMembers(t, v.members, s);
      forall k | k in s.props && k in r.members ensures Conforms(r.members[k], s.props[k]) {
        assert k in v.members;
        assert Conforms(v.members[k], s.props[k]) && r.members[k] == Cast(t, v.members[k], s.props[k]);
      }
    }
  }

  /** A node over parts that keep conforming values does so exactly when its enum is closed under the cast. */
  lemma CastKeepsConformingExactly(t: Formats, s: Schema)
    requires PartsKeepConforming(t, s)
    ensures KeepsConforming(t, s) <==> EnumIsClosed(t, s)
  {
    forall v | Conforms(v, s) ensures Conforms(Cast(t, v, s), s) <==> InEnum(Cast(t, v, s), s) {
      CastKeepsTheRest(t, v, s);
    }
    if KeepsConforming(t, s) && s.enum.Some? {
      forall e | e in s.enum.value && Conforms(e, s) ensures Cast(t, e, s) in s.enum.value {
        assert Conforms(Cast(t, e, s), s);
      }
    }
  }

  predicate EnumsAreClosed(t: Formats, s: Schema)
    decreases s
  {
    && EnumIsClosed(t, s)
    && (forall k | k in s.props :: EnumsAreClosed(t, s.props[k]))
    && (s.items.Each? ==> EnumsAreClosed(t, s.items.schema))
  }

  /** With every enum closed under the cast, casting keeps every conforming value conforming, at every depth. */
  lemma {:induction false} ClosedEnumsKeepConforming(t: Formats, s: Schema)
    requires EnumsAreClosed(t, s)
    ensures KeepsConforming(t, s)
    decreases s
  {
    forall k | k in s.props ensures KeepsConforming(t, s.props[k]) {
      ClosedEnumsKeepConforming(t, s.props[k]);
    }
    if s.items.Each? {
      ClosedEnumsKeepConforming(t, s.items.schema);
    }
    CastKeepsConformingExactly(t, s);
  }

  /** Enums sit only on string, boolean, number and untyped nodes. */
  predicate EnumsOnScalars(s: Schema)
    decreases s
  {
    && (s.enum.Some? ==> s.typ !in ["integer", "array", "object"])
    && (forall k | k in s.props :: EnumsOnScalars(s.props[k]))
    && (s.items.Each? ==> EnumsOnScalars(s.items.schema))
  }

  /** Such enums are closed, because the cast does not change a conforming value there. */
  lemma {:induction false} ScalarEnumsAreClosed(t: Formats, s: Schema)
    requires EnumsOnScalars(s)
    ensures EnumsAreClosed(t, s)
    decreases s
  {
    forall k | k in s.props ensures EnumsAreClosed(t, s.props[k]) {
      ScalarEnumsAreClosed(t, s.props[k]);
    }
    if s.items.Each? {
      ScalarEnumsAreClosed(t, s.items.schema);
    }
    if s.enum.Some? {
      forall e | e in s.enum.value && Conforms(e, s) ensures Cast(t, e, s) in s.enum.value {
        assert TypeFits(e, s.typ);
        assert Cast(t, e, s) == e;
      }
    }
  }

  /** An enum on an integer node is broken by the cast of a whole float. */
  lemma IntegerEnumIsBroken(t: Formats)
    ensures var s := ANYTHING.(typ := "integer", enum := Some([Float(5.0)]));
      Conforms(Float(5.0), s) && Cast(t, Float(5.0), s) == Int(5) && !Conforms(Int(5), s) && !EnumIsClosed(t, s)
  {
    var s := ANYTHING.(typ := "integer", enum := Some([Float(5.0)]));
    assert 5.0 == (5.0).Floor as real && (5.0).Floor == 5;
    assert Float(5.0) in s.enum.value;
    assert Conforms(Float(5.0), s);
  }
}
