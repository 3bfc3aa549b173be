/** The structural diff of two JSON Schema documents: what each comparison reports, and which
    subschemas it compares next. */
module JsonDiff {
  import opened Wrappers
  import opened Canonical
  import opened JsonKinds

  /** How numbers print, and which property names a pattern matches (none when it does not compile). */
  datatype Env = Env(show: Printer, matches: (string, string) -> bool)

  /** One step of a comparison: a difference, or a pair of subschemas to compare in turn. */
  datatype Item = Report(kind: Kind) | Descend(orig: Json, upd: Json)

  type Items = seq<Item>

  /** Every reference text inside a value. */
  function AllRefs(v: Json): set<string> {
    match v
    case Arr(items) => set x <- items, r <- AllRefs(x) :: r
    case Obj(fields) =>
      (if "$ref" in fields && fields["$ref"].Str? then {fields["$ref"].text} else {})
        + set k <- fields, r <- AllRefs(fields[k]) :: r
    case _ => {}
  }

  const COMBINATORS: set<string> := {"allOf", "anyOf", "oneOf", "not"}

  /** The reference texts that sit under a member named as a combinator. */
  function RefsUnder(v: Json): (r: set<string>)
    ensures r <= AllRefs(v)
    decreases v, 0
  {
    match v
    case Arr(items) => set x <- items, r <- RefsUnder(x) :: r
    case Obj(fields) => set k <- fields, r <- MemberRefs(k, fields[k]) :: r
    case _ => {}
  }

  function MemberRefs(key: string, v: Json): (r: set<string>)
    ensures r <= AllRefs(v)
    decreases v, 1
  {
    if key in COMBINATORS then AllRefs(v) else RefsUnder(v)
  }

  const PLAIN: Printer := (n: Number) => "0"

  function Weight(v: Json): nat { |Canonicalize(PLAIN, v)| }

  // Properly inside: smaller, and with no other references.
  ghost predicate Part(x: Json, s: Json) {
    x < s && AllRefs(x) <= AllRefs(s) && RefsUnder(x) <= RefsUnder(s) && Weight(x) < Weight(s)
  }

  lemma MembersArePart(s: Json)
    ensures s.Obj? ==> forall k <- s.fields :: Part(s.fields[k], s)
    ensures s.Arr? ==> forall x <- s.items :: Part(x, s)
  {
    PartsAreShorter(PLAIN, s);
    if s.Obj? {
      forall k <- s.fields ensures RefsUnder(s.fields[k]) <= RefsUnder(s) {
        assert RefsUnder(s.fields[k]) <= MemberRefs(k, s.fields[k]);
      }
    }
  }

  function Get(s: Json, key: string): (v: Option<Json>)
    ensures v.Some? ==> Part(v.value, s) && s.Obj?
  {
    MembersArePart(s);
    if s.Obj? && key in s.fields then Some(s.fields[key]) else None
  }

  function GetObject(s: Json, key: string): (fields: map<string, Json>)
    ensures forall k <- fields :: Part(fields[k], s)
  {
    match Get(s, key) case Some(Obj(fields)) => MembersArePart(Obj(fields)); fields case _ => map[]
  }

  function GetArray(s: Json, key: string): (items: Option<seq<Json>>)
    ensures items.Some? ==> forall x <- items.value :: Part(x, s)
  {
    match Get(s, key) case Some(Arr(items)) => MembersArePart(Arr(items)); Some(items) case _ => None
  }

  function GetText(s: Json, key: string): Option<string> {
    match Get(s, key) case Some(Str(text)) => Some(text) case _ => None
  }

  function ToReal(n: Number): real { match n case Whole(v) => v as real case Float(r) => r }

  function GetNumber(s: Json, key: string): Option<real> {
    match Get(s, key) case Some(Num(n)) => Some(ToReal(n)) case _ => None
  }

  function Strings(items: seq<Json>): set<string> { set x <- items | x.Str? :: x.text }

  // The kinds in a list of items only descend into parts of the two schemas.
  ghost predicate Inner(orig: Json, upd: Json, item: Item) {
    item.Descend? ==> Part(item.orig, orig) && Part(item.upd, upd)
  }

  ghost predicate AllInner(orig: Json, upd: Json, items: Items) {
    forall item <- items :: Inner(orig, upd, item)
  }

  // ------------------------------------------------------------------
  // Types
  // ------------------------------------------------------------------

  function TypesOf(s: Json): set<string> {
    match Get(s, "type")
    case Some(Str(t)) => {t}
    case Some(Arr(items)) => Strings(items)
    case _ => {}
  }

  predicate OnlyReports(items: Items) { forall item <- items :: item.Report? }

  function CompareType(o: Json, u: Json): (r: Items)
    ensures OnlyReports(r)
  {
    var ot, ut := TypesOf(o), TypesOf(u);
    if ot == ut then []
    else if ot == {"integer"} && ut == {"number"} then [Report(TypeExtended)]
    else if (ot == {"number"} && ut == {"integer"}) || ot == {} then [Report(TypeNarrowed)]
    else if ut == {} then [Report(TypeExtended)]
    else if ut <= ot then [Report(TypeNarrowed)]
    else if ot <= ut then [Report(TypeExtended)]
    else [Report(TypeChanged)]
  }

  // ------------------------------------------------------------------
  // Properties
  // ------------------------------------------------------------------

  datatype ContentModel = Open | Partial | Closed | Governed(schema: Json)

  function ModelOf(s: Json): (m: ContentModel)
    ensures m.Governed? ==> Part(m.schema, s)
  {
    match Get(s, "additionalProperties")
    case Some(Bool(b)) => if b then Open else Closed
    case Some(Obj(fields)) => Governed(Obj(fields))
    case _ => match Get(s, "patternProperties") case Some(Obj(_)) => Partial case _ => Open
  }

  function MatchingPatterns(env: Env, s: Json, patterns: map<string, Json>, keys: seq<string>,
          name: string): (r: seq<Json>)
    requires (forall k <- keys :: k in patterns) && forall k <- patterns :: Part(patterns[k], s)
    ensures forall x <- r :: Part(x, s)
  {
    hide Part;
    if keys == [] then []
    else
      (if env.matches(keys[0], name) then [patterns[keys[0]]] else [])
      + MatchingPatterns(env, s, patterns, keys[1..], name)
  }

  /** The schemas, other than its own, that govern a property. */
  function Covering(env: Env, s: Json, name: string): (r: seq<Json>)
    ensures forall x <- r :: Part(x, s)
  {
    hide Part;
    var patterns := GetObject(s, "patternProperties");
    (match ModelOf(s) case Governed(schema) => [schema] case _ => [])
    + MatchingPatterns(env, s, patterns, SortedKeys(patterns.Keys), name)
  }

  function Properties(s: Json): (fields: map<string, Json>)
    ensures forall k <- fields :: Part(fields[k], s)
  {
    GetObject(s, "properties")
  }

  function RequiredSet(s: Json): set<string> {
    match GetArray(s, "required") case Some(items) => Strings(items) case None => {}
  }

  function DescendAll(o: seq<Json>, u: seq<Json>): (r: Items)
    requires |o| == |u|
    ensures forall i :: 0 <= i < |r| ==> |r| == |o| && r[i] == Descend(o[i], u[i])
    ensures |r| == |o|
  {
    seq(|o|, i requires 0 <= i < |o| => Descend(o[i], u[i]))
  }

  function OneByEach(o: Json, us: seq<Json>): (r: Items)
    ensures forall item <- r :: item.Descend? && item.orig == o && item.upd in us
  {
    seq(|us|, i requires 0 <= i < |us| => Descend(o, us[i]))
  }

  function EachByOne(os: seq<Json>, u: Json): (r: Items)
    ensures forall item <- r :: item.Descend? && item.orig in os && item.upd == u
  {
    seq(|os|, i requires 0 <= i < |os| => Descend(os[i], u))
  }

  // A property that only the original declares.
  function PropertyRemoved(env: Env, o: Json, u: Json, name: string): (r: Items)
    requires name in Properties(o)
    ensures AllInner(o, u, r)
  {
    hide Part;
    var covering := Covering(env, u, name);
    match ModelOf(u)
    case Open => [Report(PropertyRemovedFromOpen)]
    case Closed => [Report(PropertyRemovedFromClosed)]
    case _ =>
      if covering == [] then [Report(PropertyRemovedNotCovered)]
      else [Report(PropertyRemovedCovered)] + OneByEach(Properties(o)[name], covering)
  }

  // What the original says of a property that it does not declare.
  function AddedTo(env: Env, o: Json, schema: Json, name: string): (r: Items)
    ensures forall item <- r :: item.Descend? ==> Part(item.orig, o) && item.upd == schema
  {
    hide Part;
    var covering := Covering(env, o, name);
    match ModelOf(o)
    case Open => [Report(if schema == Obj(map[]) then EmptyPropertyAddedToOpen else PropertyAddedToOpen)]
    case Closed => [Report(PropertyAddedToClosed)]
    case _ =>
      if covering == [] then [Report(PropertyAddedNotCovered)]
      else [Report(PropertyAddedCovered)] + EachByOne(covering, schema)
  }

  // A property that only the update declares.
  function PropertyAdded(env: Env, o: Json, u: Json, name: string): (r: Items)
    requires name in Properties(u)
    ensures AllInner(o, u, r)
  {
    hide Part;
    var schema, required := Properties(u)[name], name in RequiredSet(u);
    var hasDefault := Get(schema, "default").Some?;
    if required && hasDefault && !ModelOf(o).Open? then [Report(RequiredWithDefaultAddedToClosed)]
    else
      (if required && !hasDefault then [Report(RequiredAdded)] else []) + AddedTo(env, o, schema, name)
  }

  function RemovedProperties(env: Env, o: Json, u: Json, names: seq<string>): (r: Items)
    requires forall k <- names :: k in Properties(o)
    ensures AllInner(o, u, r)
  {
    hide Part;
    if names == [] then []
    else
      (if names[0] in Properties(u) then [] else PropertyRemoved(env, o, u, names[0]))
      + RemovedProperties(env, o, u, names[1..])
  }

  function UpdatedProperties(env: Env, o: Json, u: Json, names: seq<string>): (r: Items)
    requires forall k <- names :: k in Properties(u)
    ensures AllInner(o, u, r)
  {
    hide Part;
    if names == [] then []
    else
      (if names[0] in Properties(o) then [Descend(Properties(o)[names[0]], Properties(u)[names[0]])]
       else PropertyAdded(env, o, u, names[0]))
      + UpdatedProperties(env, o, u, names[1..])
  }

  function CompareProperties(env: Env, o: Json, u: Json): (r: Items)
    ensures AllInner(o, u, r)
  {
    RemovedProperties(env, o, u, SortedKeys(Properties(o).Keys))
      + UpdatedProperties(env, o, u, SortedKeys(Properties(u).Keys))
  }

  function NewlyRequired(o: Json, u: Json, names: seq<string>): (r: Items)
    ensures AllInner(o, u, r)
  {
    hide Part;
    if names == [] then []
    else
      (if names[0] in Properties(o) && names[0] in Properties(u)
       then [Report(if Get(Properties(u)[names[0]], "default").Some? then RequiredWithDefaultAdded else RequiredAdded)]
       else [])
      + NewlyRequired(o, u, names[1..])
  }

  function CompareRequired(o: Json, u: Json): (r: Items)
    ensures AllInner(o, u, r)
  {
    var before, after := RequiredSet(o), RequiredSet(u);
    NewlyRequired(o, u, SortedKeys(after - before)) + seq(|SortedKeys(before - after)|, _ => Report(RequiredRemoved))
  }

  predicate IsFalse(v: Option<Json>) { v == Some(Bool(false)) }

  predicate NotBoolean(v: Option<Json>) { v.Some? && !v.value.Bool? }

  function CompareAdditionalProperties(o: Json, u: Json): (r: Items)
    ensures AllInner(o, u, r)
  {
    hide Part;
    var oa, ua := Get(o, "additionalProperties"), Get(u, "additionalProperties");
    if IsFalse(oa) && !IsFalse(ua) then [Report(AdditionalPropertiesAdded)]
    else if !IsFalse(oa) && IsFalse(ua) then [Report(AdditionalPropertiesRemoved)]
    else if oa.None? && NotBoolean(ua) then [Report(AdditionalPropertiesNarrowed)]
    else if ua.None? && NotBoolean(oa) then [Report(AdditionalPropertiesExtended)]
    else if NotBoolean(oa) && NotBoolean(ua) then [Descend(oa.value, ua.value)]
    else []
  }

  // ------------------------------------------------------------------
  // Values and bounds
  // ------------------------------------------------------------------

  function CanonicalSet(env: Env, items: seq<Json>): set<string> { set x <- items :: Canonicalize(env.show, x) }

  // `enum`, or `const` as an enum of one.
  function EnumSet(env: Env, s: Json): Option<set<string>> {
    match GetArray(s, "enum")
    case Some(items) => Some(CanonicalSet(env, items))
    case None => match Get(s, "const") case Some(c) => Some({Canonicalize(env.show, c)}) case None => None
  }

  function CompareEnum(env: Env, o: Json, u: Json): (r: Items)
    ensures OnlyReports(r)
  {
    var oe, ue := EnumSet(env, o), EnumSet(env, u);
    if oe == ue then []
    else match (oe, ue)
      case (Some(os), Some(us)) => if us <= os then [Report(EnumNarrowed)] else if os <= us then [Report(EnumExtended)]
                                                                                else [Report(EnumChanged)]
      case (None, _) => [Report(EnumNarrowed)]
      case (_, None) => [Report(EnumExtended)]
  }

  function Keyword(b: Bound): string {
    match b
    case Maximum => "maximum"
    case Minimum => "minimum"
    case ExclusiveMaximum => "exclusiveMaximum"
    case ExclusiveMinimum => "exclusiveMinimum"
    case MaxLength => "maxLength"
    case MinLength => "minLength"
    case MaxItems => "maxItems"
    case MinItems => "minItems"
    case MaxProperties => "maxProperties"
    case MinProperties => "minProperties"
  }

  function CompareBound(o: Json, u: Json, b: Bound): (r: Items)
    ensures OnlyReports(r)
  {
    match (GetNumber(o, Keyword(b)), GetNumber(u, Keyword(b)))
    case (None, Some(_)) => [Report(Bounded(b, Added))]
    case (Some(_), None) => [Report(Bounded(b, Removed))]
    case (Some(x), Some(y)) => if x == y then [] else [Report(Bounded(b, if y < x then Decreased else Increased))]
    case (None, None) => []
  }

  // The quotient is whole.
  predicate Divisible(larger: real, smaller: real) {
    smaller != 0.0 && (larger / smaller).Floor as real == larger / smaller
  }

  function CompareMultipleOf(o: Json, u: Json): (r: Items)
    ensures OnlyReports(r)
  {
    match (GetNumber(o, "multipleOf"), GetNumber(u, "multipleOf"))
    case (None, Some(_)) => [Report(MultipleOfAdded)]
    case (Some(_), None) => [Report(MultipleOfRemoved)]
    case (Some(x), Some(y)) =>
      if x == y then []
      else [Report(if Divisible(x, y) then MultipleOfReduced else if Divisible(y, x) then MultipleOfExpanded
                                                                  else MultipleOfChanged)]
    case (None, None) => []
  }

  function CompareNumeric(o: Json, u: Json): (r: Items)
    ensures OnlyReports(r)
  {
    CompareBound(o, u, Maximum) + CompareBound(o, u, Minimum) + CompareBound(o, u, ExclusiveMaximum)
    + CompareBound(o, u, ExclusiveMinimum) + CompareMultipleOf(o, u)
  }

  function ComparePattern(o: Json, u: Json): (r: Items)
    ensures OnlyReports(r)
  {
    match (GetText(o, "pattern"), GetText(u, "pattern"))
    case (None, Some(_)) => [Report(PatternAdded)]
    case (Some(_), None) => [Report(PatternRemoved)]
    case (Some(x), Some(y)) => if x == y then [] else [Report(PatternChanged)]
    case (None, None) => []
  }

  function CompareString(o: Json, u: Json): (r: Items)
    ensures OnlyReports(r)
  {
    CompareBound(o, u, MaxLength) + CompareBound(o, u, MinLength) + ComparePattern(o, u)
  }

  // ------------------------------------------------------------------
  // Arrays
  // ------------------------------------------------------------------

  function Shorter(a: nat, b: nat): nat { if a <= b then a else b }

  function CompareTuples(oi: seq<Json>, ui: seq<Json>): (r: Items)
    ensures forall item <- r :: item.Descend? ==> item.orig in oi && item.upd in ui
  {
    var n := Shorter(|oi|, |ui|);
    DescendAll(oi[..n], ui[..n])
    + if |ui| > |oi| then [Report(AdditionalItemsRemoved)] else if |oi| > |ui| then [Report(AdditionalItemsAdded)]
                                                                else []
  }

  function CompareItems(o: Json, u: Json): (r: Items)
    ensures AllInner(o, u, r)
  {
    match (Get(o, "items"), Get(u, "items"))
    case (Some(Obj(of)), Some(Obj(uf))) => [Descend(Obj(of), Obj(uf))]
    case (Some(Arr(_)), Some(Arr(_))) => CompareTuples(GetArray(o, "items").value, GetArray(u, "items").value)
    case (Some(_), Some(_)) => [Report(TypeChanged)]
    case _ => []
  }

  function CompareAdditionalItems(o: Json, u: Json): (r: Items)
    ensures AllInner(o, u, r)
  {
    hide Part;
    var oa, ua := Get(o, "additionalItems"), Get(u, "additionalItems");
    if !IsFalse(oa) && IsFalse(ua) then [Report(AdditionalItemsRemoved)]
    else if IsFalse(oa) && !IsFalse(ua) then [Report(AdditionalItemsAdded)]
    else if oa.None? && NotBoolean(ua) then [Report(AdditionalItemsNarrowed)]
    else if ua.None? && NotBoolean(oa) then [Report(AdditionalItemsExtended)]
    else if NotBoolean(oa) && NotBoolean(ua) then [Descend(oa.value, ua.value)]
    else []
  }

  predicate IsUnique(s: Json) { Get(s, "uniqueItems") == Some(Bool(true)) }

  function CompareArray(o: Json, u: Json): (r: Items)
    ensures AllInner(o, u, r)
  {
    CompareItems(o, u) + CompareBound(o, u, MaxItems) + CompareBound(o, u, MinItems) + CompareAdditionalItems(o, u)
    + if !IsUnique(o) && IsUnique(u) then [Report(UniqueItemsAdded)]
      else if IsUnique(o) && !IsUnique(u) then [Report(UniqueItemsRemoved)] else []
  }

  function CompareSize(o: Json, u: Json): (r: Items)
    ensures OnlyReports(r)
  {
    CompareBound(o, u, MaxProperties) + CompareBound(o, u, MinProperties)
  }

  // ------------------------------------------------------------------
  // Dependencies and conditionals
  // ------------------------------------------------------------------

  function DependencyKind(v: Json, added: bool): Kind {
    if v.Arr? then (if added then DependencyArrayAdded else DependencyArrayRemoved)
    else if added then DependencySchemaAdded else DependencySchemaRemoved
  }

  function CompareDependency(v: Json, w: Json): Items {
    match (v, w)
    case (Arr(a), Arr(b)) =>
      var was, now := Strings(a), Strings(b);
      if now == was then []
      else [Report(if was <= now then DependencyArrayExtended else if now <= was then DependencyArrayNarrowed
                                                                   else DependencyArrayChanged)]
    case (Obj(_), Obj(_)) => [Descend(v, w)]
    case _ => if v == w then [] else [Report(DependencyArrayChanged)]
  }

  function OldDependencies(o: Json, u: Json, names: seq<string>): (r: Items)
    requires forall k <- names :: k in GetObject(o, "dependencies")
    ensures AllInner(o, u, r)
  {
    hide Part;
    if names == [] then []
    else
      var v := GetObject(o, "dependencies")[names[0]];
      (if names[0] in GetObject(u, "dependencies") then CompareDependency(v, GetObject(u, "dependencies")[names[0]])
       else [Report(DependencyKind(v, false))])
      + OldDependencies(o, u, names[1..])
  }

  function NewDependencies(o: Json, u: Json, names: seq<string>): (r: Items)
    requires forall k <- names :: k in GetObject(u, "dependencies")
    ensures AllInner(o, u, r)
  {
    hide Part;
    if names == [] then []
    else
      (if names[0] in GetObject(o, "dependencies") then []
       else [Report(DependencyKind(GetObject(u, "dependencies")[names[0]], true))])
      + NewDependencies(o, u, names[1..])
  }

  function CompareDependencies(o: Json, u: Json): (r: Items)
    ensures AllInner(o, u, r)
  {
    OldDependencies(o, u, SortedKeys(GetObject(o, "dependencies").Keys))
      + NewDependencies(o, u, SortedKeys(GetObject(u, "dependencies").Keys))
  }

  function CompareConditional(env: Env, o: Json, u: Json, keyword: string): (r: Items)
    ensures AllInner(o, u, r)
  {
    match (Get(o, keyword), Get(u, keyword))
    case (Some(v), Some(w)) =>
      if Canonicalize(env.show, v) == Canonicalize(env.show, w) then [] else [Report(ConditionalChanged), Descend(v, w)]
    case (None, None) => []
    case _ => [Report(ConditionalChanged)]
  }

  function CompareConditionals(env: Env, o: Json, u: Json): (r: Items)
    ensures AllInner(o, u, r)
  {
    CompareConditional(env, o, u, "if") + CompareConditional(env, o, u, "then") + CompareConditional(env, o, u, "else")
  }

  // ------------------------------------------------------------------
  // The order of comparisons
  // ------------------------------------------------------------------

  function CompareObject(env: Env, o: Json, u: Json): (r: Items)
    ensures AllInner(o, u, r)
  {
    CompareProperties(env, o, u) + CompareRequired(o, u) + CompareAdditionalProperties(o, u)
  }

  function CompareValues(o: Json, u: Json): (r: Items)
    ensures AllInner(o, u, r)
  {
    CompareNumeric(o, u) + CompareString(o, u) + CompareArray(o, u) + CompareSize(o, u)
  }

  /** What is compared before the combinators. */
  function Leading(env: Env, o: Json, u: Json): (r: Items)
    ensures AllInner(o, u, r)
  {
    CompareType(o, u) + CompareEnum(env, o, u) + CompareObject(env, o, u) + CompareValues(o, u)
  }

  /** What is compared after them. */
  function Trailing(env: Env, o: Json, u: Json): (r: Items)
    ensures AllInner(o, u, r)
  {
    CompareDependencies(o, u) + CompareConditionals(env, o, u)
  }
}
