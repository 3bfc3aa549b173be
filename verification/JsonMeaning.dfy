/** What a schema demands of an instance: the keywords of JSON Schema Validation draft-07, section 6. */
module JsonMeaning {
  import opened Wrappers
  import opened Canonical
  import opened JsonKinds
  import opened JsonDiff

  /** Equality of instances: numbers by value, objects without order. */
  ghost predicate Same(a: Json, b: Json) {
    match (a, b)
    case (Num(x), Num(y)) => ToReal(x) == ToReal(y)
    case (Arr(xs), Arr(ys)) => |xs| == |ys| && forall i :: 0 <= i < |xs| ==> Same(xs[i], ys[i])
    case (Obj(fs), Obj(gs)) => fs.Keys == gs.Keys && forall k <- fs :: Same(fs[k], gs[k])
    case _ => a == b
  }

  predicate HasType(i: Json, t: string) {
    match i
    case Null => t == "null"
    case Bool(_) => t == "boolean"
    case Num(n) => t == "number" || (t == "integer" && ToReal(n).Floor as real == ToReal(n))
    case Str(_) => t == "string"
    case Arr(_) => t == "array"
    case Obj(_) => t == "object"
  }

  ghost predicate TypeValid(s: Json, i: Json) {
    Get(s, "type").Some? ==> exists t <- TypesOf(s) :: HasType(i, t)
  }

  ghost predicate EnumValid(s: Json, i: Json) {
    && (GetArray(s, "enum").Some? ==> exists x <- GetArray(s, "enum").value :: Same(x, i))
    && (Get(s, "const").Some? ==> Same(Get(s, "const").value, i))
  }

  // What a bound limits: the number, the text length, the item or the member count.
  function Measure(b: Bound, i: Json): Option<real> {
    match b
    case Maximum => (match i case Num(n) => Some(ToReal(n)) case _ => None)
    case Minimum => (match i case Num(n) => Some(ToReal(n)) case _ => None)
    case ExclusiveMaximum => (match i case Num(n) => Some(ToReal(n)) case _ => None)
    case ExclusiveMinimum => (match i case Num(n) => Some(ToReal(n)) case _ => None)
    case MaxLength => (match i case Str(t) => Some(|t| as real) case _ => None)
    case MinLength => (match i case Str(t) => Some(|t| as real) case _ => None)
    case MaxItems => (match i case Arr(xs) => Some(|xs| as real) case _ => None)
    case MinItems => (match i case Arr(xs) => Some(|xs| as real) case _ => None)
    case MaxProperties => (match i case Obj(fs) => Some(|fs| as real) case _ => None)
    case MinProperties => (match i case Obj(fs) => Some(|fs| as real) case _ => None)
  }

  predicate BoundHolds(b: Bound, limit: real, x: real) {
    if b.ExclusiveMaximum? then x < limit
    else if b.ExclusiveMinimum? then x > limit
    else if IsUpper(b) then x <= limit else x >= limit
  }

  predicate BoundValid(s: Json, b: Bound, i: Json) {
    GetNumber(s, Keyword(b)).Some? && Measure(b, i).Some? ==>
        BoundHolds(b, GetNumber(s, Keyword(b)).value, Measure(b, i).value)
  }

  predicate Times(x: real, k: int, m: real) { x == k as real * m }

  ghost predicate MultipleValid(s: Json, i: Json) {
    GetNumber(s, "multipleOf").Some? && i.Num? ==>
        exists k: int :: Times(ToReal(i.number), k, GetNumber(s, "multipleOf").value)
  }

  predicate PatternValid(env: Env, s: Json, i: Json) {
    GetText(s, "pattern").Some? && i.Str? ==> env.matches(GetText(s, "pattern").value, i.text)
  }

  ghost predicate UniqueValid(s: Json, i: Json) {
    IsUnique(s) && i.Arr? ==> forall a, b :: 0 <= a < b < |i.items| ==> !Same(i.items[a], i.items[b])
  }

  // A declared name, or one that a pattern property speaks of.
  predicate Declared(env: Env, s: Json, name: string) {
    name in Properties(s) || exists p <- GetObject(s, "patternProperties") :: env.matches(p, name)
  }

  predicate MembersValid(env: Env, s: Json, i: Json) {
    i.Obj? ==>
      && RequiredSet(s) <= i.fields.Keys
      && (IsFalse(Get(s, "additionalProperties")) ==> forall k <- i.fields :: Declared(env, s, k))
  }

  /** The instance meets every keyword of the schema that says nothing about subschemas. */
  ghost predicate Flat(env: Env, s: Json, i: Json) {
    && TypeValid(s, i) && EnumValid(s, i) && (forall b :: BoundValid(s, b, i)) && MultipleValid(s, i)
    && PatternValid(env, s, i) && UniqueValid(s, i) && MembersValid(env, s, i)
  }

  // items, additionalItems and contains.
  ghost predicate ItemsValid(env: Env, s: Json, i: Json)
    decreases s, 0
  {
    i.Arr? ==>
      && (match Get(s, "items")
          case Some(Arr(_)) =>
            var tuple := GetArray(s, "items").value;
            && (forall n :: 0 <= n < |i.items| && n < |tuple| ==> Valid(env, tuple[n], i.items[n]))
            && (Get(s, "additionalItems").Some? ==>
                  forall n :: |tuple| <= n < |i.items| ==> Valid(env, Get(s, "additionalItems").value, i.items[n]))
          case Some(each) => forall x <- i.items :: Valid(env, each, x)
          case None => true)
      && (Get(s, "contains").Some? ==> exists x <- i.items :: Valid(env, Get(s, "contains").value, x))
  }

  // patternProperties, additionalProperties and propertyNames.
  ghost predicate NamesValid(env: Env, s: Json, i: Json)
    decreases s, 0
  {
    i.Obj? ==>
      && (forall p <- GetObject(s, "patternProperties"), k <- i.fields ::
            env.matches(p, k) ==> Valid(env, GetObject(s, "patternProperties")[p], i.fields[k]))
      && (Get(s, "additionalProperties").Some? ==>
            forall k <- i.fields ::
                Declared(env, s, k) || Valid(env, Get(s, "additionalProperties").value, i.fields[k]))
      && (Get(s, "propertyNames").Some? ==> forall k <- i.fields :: Valid(env, Get(s, "propertyNames").value, Str(k)))
  }

  // dependencies, if/then/else and oneOf.
  ghost predicate ConditionsValid(env: Env, s: Json, i: Json)
    decreases s, 0
  {
    && (i.Obj? ==> forall k <- GetObject(s, "dependencies") :: k in i.fields ==>
          var d := GetObject(s, "dependencies")[k];
          if d.Arr? then Strings(d.items) <= i.fields.Keys else Valid(env, d, i))
    && (Get(s, "if").Some? ==>
          if Valid(env, Get(s, "if").value, i) then Get(s, "then").Some? ==> Valid(env, Get(s, "then").value, i)
          else Get(s, "else").Some? ==> Valid(env, Get(s, "else").value, i))
    && (GetArray(s, "oneOf").Some? ==>
          var branches := GetArray(s, "oneOf").value;
          && (exists x <- branches :: Valid(env, x, i))
          && forall m, n :: 0 <= m < n < |branches| ==> !Valid(env, branches[m], i) || !Valid(env, branches[n], i))
  }

  /** An instance of the schema. `$ref` is given no meaning here. */
  ghost predicate Valid(env: Env, s: Json, i: Json)
    decreases s, 1
  {
    && s != Bool(false)
    && Flat(env, s, i)
    && (i.Obj? ==> forall k <- Properties(s) :: k in i.fields ==> Valid(env, Properties(s)[k], i.fields[k]))
    && (GetArray(s, "allOf").Some? ==> forall x <- GetArray(s, "allOf").value :: Valid(env, x, i))
    && (GetArray(s, "anyOf").Some? ==> exists x <- GetArray(s, "anyOf").value :: Valid(env, x, i))
    && (Get(s, "not").Some? ==> !Valid(env, Get(s, "not").value, i))
    && ItemsValid(env, s, i) && NamesValid(env, s, i) && ConditionsValid(env, s, i)
  }
}
