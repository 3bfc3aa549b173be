/** The recursive comparison: references behind a cycle guard, combinators by matching. */
module JsonCompare {
  import opened Wrappers
  import opened Canonical
  import opened JsonKinds
  import opened JsonDiff
  import Matching

  // ------------------------------------------------------------------
  // References
  // ------------------------------------------------------------------

  type RefMap = seq<(string, Json)>

  /** One side's document root and registry references. */
  datatype Side = Side(root: Json, refs: RefMap)

  datatype Context = Context(orig: Side, upd: Side, visited: set<(string, string)>)

  function Fresh(c: Context): Context { c.(visited := {}) }

  // The tokens of a JSON pointer that follow its first '/'.
  function Tokens(pointer: string): (r: seq<string>)
    ensures r != []
  {
    if pointer == [] then [""]
    else
      var rest := Tokens(pointer[1..]);
      if pointer[0] == '/' then [""] + rest else [[pointer[0]] + rest[0]] + rest[1..]
  }

  // "~1" stands for '/' and "~0" for '~'.
  function Unescape(token: string): string {
    if token == [] then []
    else if |token| > 1 && token[0] == '~' && token[1] == '1' then "/" + Unescape(token[2..])
    else if |token| > 1 && token[0] == '~' && token[1] == '0' then "~" + Unescape(token[2..])
    else [token[0]] + Unescape(token[1..])
  }

  function ParseDigits(s: string, value: nat): Option<nat> {
    if s == [] then Some(value)
    else if '0' <= s[0] <= '9' then ParseDigits(s[1..], 10 * value + (s[0] as int - '0' as int)) else None
  }

  // No sign, no leading zero.
  function ParseIndex(token: string): Option<nat> {
    if token == [] || (token[0] == '0' && |token| > 1) then None else ParseDigits(token, 0)
  }

  function Walk(v: Json, tokens: seq<string>): Option<Json> {
    if tokens == [] then Some(v)
    else match v
      case Obj(fields) => var k := Unescape(tokens[0]); if k in fields then Walk(fields[k], tokens[1..]) else None
      case Arr(items) => (match ParseIndex(Unescape(tokens[0]))
                          case Some(i) => if i < |items| then Walk(items[i], tokens[1..]) else None
                          case None => None)
      case _ => None
  }

  function Pointer(root: Json, pointer: string): Option<Json> {
    if pointer == [] then Some(root)
    else if pointer[0] != '/' then None else Walk(root, Tokens(pointer[1..]))
  }

  function Named(refs: RefMap, name: string): Option<Json> {
    if refs == [] then None else if refs[0].0 == name then Some(refs[0].1) else Named(refs[1..], name)
  }

  /** A `#` reference resolves in its own document, any other among the registry references. */
  function ResolveText(side: Side, text: string): Option<Json> {
    if text != [] && text[0] == '#' then Pointer(side.root, text[1..]) else Named(side.refs, text)
  }

  function RefOf(s: Json): Option<string> { GetText(s, "$ref") }

  function Resolved(side: Side, s: Json): Option<Json> {
    match RefOf(s) case Some(text) => ResolveText(side, text) case None => None
  }

  function GuardKey(o: Json, u: Json): (string, string) {
    (if RefOf(o).Some? then RefOf(o).value else "", if RefOf(u).Some? then RefOf(u).value else "")
  }

  function Guarding(c: Context, o: Json, u: Json): Context { c.(visited := c.visited + {GuardKey(o, u)}) }

  /** What a pair with references compares instead: a side that resolves is replaced by its target. */
  function Followed(c: Context, o: Json, u: Json): Option<(Json, Json)> {
    match (Resolved(c.orig, o), Resolved(c.upd, u))
    case (Some(x), Some(y)) => Some((x, y))
    case (Some(x), None) => Some((x, u))
    case (None, Some(y)) => Some((o, y))
    case (None, None) => None
  }

  // ------------------------------------------------------------------
  // Combinators
  // ------------------------------------------------------------------

  // The verdict on a pair of branches, or none when its comparison does not end.
  type Verdict = (Json, Json) -> Option<bool>

  function Concat3<T>(a: Option<seq<T>>, b: Option<seq<T>>, c: Option<seq<T>>): Option<seq<T>> {
    match (a, b, c)
    case (Some(x), Some(y), Some(z)) => Some(x + y + z)
    case _ => None
  }

  ghost predicate Judged(ok: Verdict, os: seq<Json>, us: seq<Json>) {
    forall i, j :: 0 <= i < |os| && 0 <= j < |us| ==> ok(os[i], us[j]).Some?
  }

  // The branches of `us` that read branch `o`.
  function Readers(ok: Verdict, o: Json, us: seq<Json>): seq<nat> {
    if us == [] then []
    else
      var n := |us| - 1;
      Readers(ok, o, us[..n]) + if ok(o, us[n]) == Some(true) then [n] else []
  }

  function Edges(ok: Verdict, os: seq<Json>, us: seq<Json>): Matching.Edges {
    seq(|os|, i requires 0 <= i < |os| => Readers(ok, os[i], us))
  }

  /** An injective pairing of compatible branches covers the shorter side. */
  ghost predicate Paired(ok: Verdict, os: seq<Json>, us: seq<Json>) {
    exists m :: Matching.CoversShorter(Edges(ok, os, us), |us|, m)
  }

  ghost function CompareBranches(ok: Verdict, os: seq<Json>, us: seq<Json>, longer: Kind,
          shorter: Kind): Option<seq<Kind>> {
    if os == us then Some([])
    else if !Judged(ok, os, us) then None
    else Some(if !Paired(ok, os, us) then [SubschemasChanged]
              else if |us| > |os| then [longer] else if |us| < |os| then [shorter] else [])
  }

  ghost function CompareAllOf(ok: Verdict, o: Json, u: Json): Option<seq<Kind>> {
    match (GetArray(o, "allOf"), GetArray(u, "allOf"))
    case (Some(os), Some(us)) => CompareBranches(ok, os, us, ProductTypeExtended, ProductTypeNarrowed)
    case (None, None) => Some([])
    case _ => Some([CombinedTypeChanged])
  }

  // `anyOf`, else `oneOf`.
  datatype Sum = Sum(any: bool, branches: seq<Json>)

  function SumOf(s: Json): (r: Option<Sum>)
    ensures r.Some? ==> forall x <- r.value.branches :: Part(x, s)
  {
    match GetArray(s, "anyOf")
    case Some(branches) => Some(Sum(true, branches))
    case None => match GetArray(s, "oneOf") case Some(branches) => Some(Sum(false, branches)) case None => None
  }

  // The first readable branch decides; later ones are not compared.
  function AnyReads(ok: Verdict, o: Json, us: seq<Json>): Option<bool> {
    if us == [] then Some(false)
    else match ok(o, us[0])
      case Some(true) => Some(true)
      case Some(false) => AnyReads(ok, o, us[1..])
      case None => None
  }

  function AllRead(ok: Verdict, os: seq<Json>, u: Json): Option<bool> {
    if os == [] then Some(true)
    else match ok(os[0], u)
      case Some(true) => AllRead(ok, os[1..], u)
      case Some(false) => Some(false)
      case None => None
  }

  function Chosen(verdict: Option<bool>, yes: Kind, no: Kind): Option<seq<Kind>> {
    match verdict case Some(b) => Some([if b then yes else no]) case None => None
  }

  ghost function CompareSum(ok: Verdict, o: Json, u: Json): Option<seq<Kind>> {
    match (SumOf(o), SumOf(u))
    case (Some(was), Some(now)) =>
      if was.any != now.any then Some([if now.any then CombinedTypeExtended else CombinedTypeChanged])
      else CompareBranches(ok, was.branches, now.branches, SumTypeExtended, SumTypeNarrowed)
    case (None, Some(now)) => Chosen(AnyReads(ok, o, now.branches), SumTypeExtended, CombinedTypeChanged)
    case (Some(was), None) => Chosen(AllRead(ok, was.branches, u), SumTypeNarrowed, CombinedTypeChanged)
    case (None, None) => Some([])
  }

  // The branches change sides.
  function CompareNot(ok: Verdict, o: Json, u: Json): Option<seq<Kind>> {
    match (Get(o, "not"), Get(u, "not"))
    case (Some(was), Some(now)) => if was == now then Some([])
                                   else Chosen(ok(now, was), NotTypeNarrowed, NotTypeExtended)
    case (None, None) => Some([])
    case _ => Some([CombinedTypeChanged])
  }

  ghost function CompareCombinators(ok: Verdict, o: Json, u: Json): Option<seq<Kind>> {
    Concat3(CompareAllOf(ok, o, u), CompareSum(ok, o, u), CompareNot(ok, o, u))
  }

  // ------------------------------------------------------------------
  // The comparison
  // ------------------------------------------------------------------

  /** The differences between two schemas, or none when `fuel` does not cover the recursion. */
  ghost function Compare(env: Env, fuel: nat, c: Context, o: Json, u: Json): Option<seq<Kind>>
    decreases fuel, 1, 0
  {
    if fuel == 0 then None
    else if RefOf(o).None? && RefOf(u).None? then
      Concat3(Run(env, fuel, c, Leading(env, o, u)),
              CompareCombinators((a, b) => Compatible(env, fuel - 1, Fresh(c), a, b), o, u),
              Run(env, fuel, c, Trailing(env, o, u)))
    else if GuardKey(o, u) in c.visited then Some([])
    else match Followed(c, o, u)
      case Some((x, y)) => Compare(env, fuel - 1, Guarding(c, o, u), x, y)
      case None => Some([])
  }

  ghost function Run(env: Env, fuel: nat, c: Context, items: Items): Option<seq<Kind>>
    requires fuel > 0
    decreases fuel, 0, |items|
  {
    if items == [] then Some([])
    else
      var first := match items[0] case Report(k) => Some([k]) case Descend(a, b) => Compare(env, fuel - 1, c, a, b);
      match (first, Run(env, fuel, c, items[1..]))
      case (Some(x), Some(rest)) => Some(x + rest)
      case _ => None
  }

  ghost function Compatible(env: Env, fuel: nat, c: Context, o: Json, u: Json): Option<bool>
    decreases fuel, 2, 0
  {
    match Compare(env, fuel, c, o, u) case Some(kinds) => Some(AllCompatible(kinds)) case None => None
  }
}
