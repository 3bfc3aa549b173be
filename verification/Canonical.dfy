/** The canonical JSON text used as an identity: compact, with object keys sorted. */
module Canonical {
  import opened Wrappers
  import opened Identity
  import opened IdentityKeys

  // `1` and `1.0` are different numbers. A float is the exact value of its double.
  datatype Number = Whole(value: int) | Float(exact: real)

  datatype Json =
    | Null
    | Bool(value: bool)
    | Num(number: Number)
    | Str(text: string)
    | Arr(items: seq<Json>)
    | Obj(fields: map<string, Json>)

  // ------------------------------------------------------------------
  // Sorted keys
  // ------------------------------------------------------------------

  lemma {:induction false} LeastExists(s: set<string>) returns (least: string)
    requires s != {}
    ensures least in s && forall x <- s :: Leq(least, x)
  {
    var k :| k in s;
    var rest := s - {k};
    LeqTotal(k, k);
    least := k;
    if rest != {} {
      var l := LeastExists(rest);
      LeqTotal(k, l);
      least := if Leq(k, l) then k else l;
      forall x <- rest ensures Leq(least, x) { if least == k { LeqTransitive(k, l, x); } }
    }
    forall x <- s ensures Leq(least, x) { assert x == k || x in rest; }
  }

  function Least(s: set<string>): (k: string)
    requires s != {}
    ensures k in s && forall x <- s :: Leq(k, x)
  {
    assert exists k :: k in s && forall x <- s :: Leq(k, x) by { var k := LeastExists(s); }
    assert forall a, b | a in s && b in s && Leq(a, b) && Leq(b, a) :: a == b by {
      forall a, b | a in s && b in s && Leq(a, b) && Leq(b, a) ensures a == b { LeqTotal(a, b); }
    }
    var k :| k in s && forall x <- s :: Leq(k, x);
    k
  }

  function SortedKeys(s: set<string>): (keys: seq<string>)
    ensures forall k :: k in keys <==> k in s
  {
    if s == {} then [] else [Least(s)] + SortedKeys(s - {Least(s)})
  }

  // ------------------------------------------------------------------
  // Text
  // ------------------------------------------------------------------

  function HexDigit(n: nat): char
    requires n < 16
  {
    if n < 10 then '0' + n as char else 'a' + (n - 10) as char
  }

  function Escape(c: char): string {
    if c == '\"' then "\\\""
    else if c == '\\' then "\\\\"
    else if c == '\U{8}' then "\\b"
    else if c == '\U{c}' then "\\f"
    else if c == '\n' then "\\n"
    else if c == '\r' then "\\r"
    else if c == '\t' then "\\t"
    else if c < ' ' then "\\u00" + [HexDigit(c as int / 16), HexDigit(c as int % 16)]
    else [c]
  }

  function EscapeAll(s: string): string {
    if s == [] then [] else Escape(s[0]) + EscapeAll(s[1..])
  }

  function Quoted(s: string): string { "\"" + EscapeAll(s) + "\"" }

  /** `show` prints a number. */
  type Printer = Number -> string

  function Canonicalize(show: Printer, v: Json): string
    decreases v, 1, 0
  {
    match v
    case Null => "null"
    case Bool(b) => if b then "true" else "false"
    case Num(n) => show(n)
    case Str(s) => Quoted(s)
    case Arr(_) => "[" + Join(Texts(show, v, 0), ",") + "]"
    case Obj(fields) => "{" + Join(Members(show, v, SortedKeys(fields.Keys)), ",") + "}"
  }

  function Texts(show: Printer, v: Json, from: nat): seq<string>
    requires v.Arr? && from <= |v.items|
    decreases v, 0, |v.items| - from
  {
    if from == |v.items| then [] else [Canonicalize(show, v.items[from])] + Texts(show, v, from + 1)
  }

  function Members(show: Printer, v: Json, keys: seq<string>): seq<string>
    requires v.Obj? && forall k <- keys :: k in v.fields
    decreases v, 0, |keys|
  {
    if keys == [] then []
    else [Quoted(keys[0]) + ":" + Canonicalize(show, v.fields[keys[0]])] + Members(show, v, keys[1..])
  }

  lemma {:induction false} JoinLonger(xs: seq<string>, x: string)
    requires x in xs
    ensures |x| <= |Join(xs, ",")|
  {
    if xs[0] != x {
      assert xs == [xs[0]] + xs[1..];
      JoinLonger(xs[1..], x);
    }
  }

  lemma {:induction false} ItemText(show: Printer, v: Json, from: nat, i: nat)
    requires v.Arr? && from <= i < |v.items|
    ensures Canonicalize(show, v.items[i]) in Texts(show, v, from)
    decreases i - from
  {
    if from < i {
      ItemText(show, v, from + 1, i);
    }
  }

  lemma {:induction false} MemberText(show: Printer, v: Json, keys: seq<string>, k: string)
    requires v.Obj? && (forall x <- keys :: x in v.fields) && k in keys
    ensures Quoted(k) + ":" + Canonicalize(show, v.fields[k]) in Members(show, v, keys)
  {
    if keys[0] != k {
      assert keys == [keys[0]] + keys[1..];
      MemberText(show, v, keys[1..], k);
    }
  }

  /** A part's text is shorter than the whole. */
  lemma PartsAreShorter(show: Printer, v: Json)
    ensures v.Arr? ==> forall x <- v.items :: |Canonicalize(show, x)| < |Canonicalize(show, v)|
    ensures v.Obj? ==> forall k <- v.fields :: |Canonicalize(show, v.fields[k])| < |Canonicalize(show, v)|
  {
    if v.Arr? {
      forall x <- v.items ensures |Canonicalize(show, x)| < |Canonicalize(show, v)| {
        var i :| 0 <= i < |v.items| && v.items[i] == x;
        ItemText(show, v, 0, i);
        JoinLonger(Texts(show, v, 0), Canonicalize(show, x));
      }
    } else if v.Obj? {
      forall k <- v.fields ensures |Canonicalize(show, v.fields[k])| < |Canonicalize(show, v)| {
        var keys := SortedKeys(v.fields.Keys);
        MemberText(show, v, keys, k);
        JoinLonger(Members(show, v, keys), Quoted(k) + ":" + Canonicalize(show, v.fields[k]));
      }
    }
  }

  // ------------------------------------------------------------------
  // Unique decodability
  // ------------------------------------------------------------------

  predicate NumberChar(c: char) { '0' <= c <= '9' || c == '-' || c == '+' || c == '.' || c == 'e' || c == 'E' }

  /** Numbers print distinctly, in number characters only, starting with a digit or a minus sign. */
  ghost predicate PrintsNumbers(show: Printer) {
    && (forall n :: show(n) != [] && ('0' <= show(n)[0] <= '9' || show(n)[0] == '-') && forall c <- show(n) ::
        NumberChar(c))
    && forall a, b :: show(a) == show(b) ==> a == b
  }

  // What can follow a value.
  ghost predicate Delimited(x: string) { x == [] || x[0] == ',' || x[0] == ']' || x[0] == '}' }

  lemma EscapeUnique(c: char, d: char, x: string, y: string)
    requires Escape(c) + x == Escape(d) + y
    ensures c == d && x == y
  {
    var s, t := Escape(c) + x, Escape(d) + y;
    assert s[0] == Escape(c)[0] && t[0] == Escape(d)[0];
    if |Escape(c)| > 1 && |Escape(d)| > 1 {
      assert s[1] == Escape(c)[1] && t[1] == Escape(d)[1];
    }
    if |Escape(c)| == 6 && |Escape(d)| == 6 {
      assert s[4] == Escape(c)[4] && s[5] == Escape(c)[5] && t[4] == Escape(d)[4] && t[5] == Escape(d)[5];
    }
    assert |Escape(c)| == |Escape(d)|;
    assert s[|Escape(c)|..] == x && t[|Escape(d)|..] == y;
  }

  lemma EscapeStarts(c: char, x: string)
    ensures Escape(c) + x != [] && (Escape(c) + x)[0] != '\"'
  {}

  lemma EscapedStep(s: string, x: string)
    ensures EscapeAll(s) + "\"" + x == if s == [] then "\"" + x else Escape(s[0]) + (EscapeAll(s[1..]) + "\"" + x)
  {}

  lemma {:induction false} EscapedUnique(s: string, t: string, x: string, y: string)
    requires EscapeAll(s) + "\"" + x == EscapeAll(t) + "\"" + y
    ensures s == t && x == y
  {
    EscapedStep(s, x);
    EscapedStep(t, y);
    if s != [] { EscapeStarts(s[0], EscapeAll(s[1..]) + "\"" + x); }
    if t != [] { EscapeStarts(t[0], EscapeAll(t[1..]) + "\"" + y); }
    if s == [] || t == [] {
      assert ("\"" + x)[0] == '\"' && ("\"" + x)[1..] == x && ("\"" + y)[0] == '\"' && ("\"" + y)[1..] == y;
    } else {
      EscapeUnique(s[0], t[0], EscapeAll(s[1..]) + "\"" + x, EscapeAll(t[1..]) + "\"" + y);
      EscapedUnique(s[1..], t[1..], x, y);
      assert s == [s[0]] + s[1..] && t == [t[0]] + t[1..];
    }
  }

  lemma QuotedUnique(s: string, t: string, x: string, y: string)
    requires Quoted(s) + x == Quoted(t) + y
    ensures s == t && x == y
  {
    hide EscapeAll;
    assert (Quoted(s) + x)[1..] == EscapeAll(s) + "\"" + x && (Quoted(t) + y)[1..] == EscapeAll(t) + "\"" + y;
    EscapedUnique(s, t, x, y);
  }

  lemma {:induction false} NumberUnique(a: string, b: string, x: string, y: string)
    requires (forall c <- a :: NumberChar(c)) && (forall c <- b :: NumberChar(c)) && Delimited(x) && Delimited(y)
    requires a + x == b + y
    ensures a == b && x == y
  {
    var s := a + x;
    assert (forall i :: 0 <= i < |a| ==> s[i] == a[i]) && (forall i :: 0 <= i < |b| ==> s[i] == b[i]);
    assert (forall i :: 0 <= i < |a| ==> NumberChar(s[i])) && (forall i :: 0 <= i < |b| ==> NumberChar(s[i]));
    assert x != [] ==> s[|a|] == x[0];
    assert s == b + y && (y != [] ==> (b + y)[|b|] == y[0]);
    assert |a| == |b|;
    assert s[..|a|] == a && s[..|b|] == b && s[|a|..] == x && s[|b|..] == y;
  }

  // The first character tells the kind of value.
  function Kind(c: char): int {
    if c == 'n' then 0 else if c == 't' then 1 else if c == 'f' then 2 else if c == '\"' then 3 else if c == '[' then 4
    else if c == '{' then 5 else if '0' <= c <= '9' || c == '-' then 6 else 7
  }

  function KindOf(v: Json): int {
    match v
    case Null => 0
    case Bool(b) => if b then 1 else 2
    case Str(_) => 3
    case Arr(_) => 4
    case Obj(_) => 5
    case Num(_) => 6
  }

  lemma StartsWithKind(show: Printer, v: Json, x: string)
    requires PrintsNumbers(show)
    ensures Canonicalize(show, v) != [] && Kind((Canonicalize(show, v) + x)[0]) == KindOf(v)
  {
    match v {
      case Num(n) => assert show(n) != [];
      case Str(s) => assert Quoted(s)[0] == '\"';
      case Arr(_) => assert ("[" + Join(Texts(show, v, 0), ",") + "]")[0] == '[';
      case Obj(fields) => assert ("{" + Join(Members(show, v, SortedKeys(fields.Keys)), ",") + "}")[0] == '{';
      case Null =>
      case Bool(_) =>
    }
  }

  // ------------------------------------------------------------------
  // Equal texts, equal values
  // ------------------------------------------------------------------

  lemma Cons(c: char, x: string)
    ensures ([c] + x)[0] == c && ([c] + x)[1..] == x
  {}

  lemma JoinStep(text: string, rest: seq<string>, close: string)
    ensures Join([text] + rest, ",") + close == text + (if rest == [] then close else "," + (Join(rest, ",") + close))
  {
    assert ([text] + rest)[1..] == rest;
  }

  // The rest of an array text from the item at `i` on, and what follows that item.
  function ItemsText(show: Printer, v: Json, i: nat, x: string): string
    requires v.Arr? && i <= |v.items|
  {
    Join(Texts(show, v, i), ",") + ("]" + x)
  }

  function AfterItem(show: Printer, v: Json, i: nat, x: string): string
    requires v.Arr? && i < |v.items|
  {
    if i + 1 == |v.items| then "]" + x else "," + ItemsText(show, v, i + 1, x)
  }

  lemma ItemStep(show: Printer, v: Json, i: nat, x: string)
    requires v.Arr? && i < |v.items|
    ensures ItemsText(show, v, i, x) == Canonicalize(show, v.items[i]) + AfterItem(show, v, i, x)
  {
    JoinStep(Canonicalize(show, v.items[i]), Texts(show, v, i + 1), "]" + x);
    assert Texts(show, v, i + 1) == [] <==> i + 1 == |v.items|;
  }

  lemma ItemsEnd(show: Printer, v: Json, i: nat, x: string)
    requires v.Arr? && i <= |v.items| && PrintsNumbers(show)
    ensures ItemsText(show, v, i, x) != [] && (ItemsText(show, v, i, x)[0] == ']' <==> i == |v.items|)
    ensures i == |v.items| ==> ItemsText(show, v, i, x)[1..] == x
  {
    if i < |v.items| {
      ItemStep(show, v, i, x);
      StartsWithKind(show, v.items[i], AfterItem(show, v, i, x));
    } else {
      Cons(']', x);
      assert ItemsText(show, v, i, x) == "]" + x;
    }
  }

  lemma AfterItemEnds(show: Printer, v: Json, i: nat, x: string)
    requires v.Arr? && i < |v.items|
    ensures var t := AfterItem(show, v, i, x);
            Delimited(t) && t != [] && (t[0] == ']' <==>
                i + 1 == |v.items|) && t[1..] == if i + 1 == |v.items| then x else ItemsText(show, v, i + 1, x)
  {
    if i + 1 == |v.items| { Cons(']', x); } else { Cons(',', ItemsText(show, v, i + 1, x)); }
  }

  // The same for the members of an object text.
  function MembersText(show: Printer, v: Json, keys: seq<string>, x: string): string
    requires v.Obj? && forall k <- keys :: k in v.fields
  {
    Join(Members(show, v, keys), ",") + ("}" + x)
  }

  function AfterMember(show: Printer, v: Json, keys: seq<string>, x: string): string
    requires v.Obj? && keys != [] && forall k <- keys :: k in v.fields
  {
    if |keys| == 1 then "}" + x else "," + MembersText(show, v, keys[1..], x)
  }

  lemma Regroup(a: string, b: string, c: string, d: string)
    ensures a + b + c + d == a + (b + (c + d))
  {}

  lemma MemberStep(show: Printer, v: Json, keys: seq<string>, x: string)
    requires v.Obj? && keys != [] && forall k <- keys :: k in v.fields
    ensures MembersText(show, v, keys, x) == Quoted(keys[0])
        + (":" + (Canonicalize(show, v.fields[keys[0]]) + AfterMember(show, v, keys, x)))
  {
    var rest, value := Members(show, v, keys[1..]), Canonicalize(show, v.fields[keys[0]]);
    JoinStep(Quoted(keys[0]) + ":" + value, rest, "}" + x);
    assert rest == [] <==> |keys| == 1;
    Regroup(Quoted(keys[0]), ":", value, AfterMember(show, v, keys, x));
  }

  lemma MembersEnd(show: Printer, v: Json, keys: seq<string>, x: string)
    requires v.Obj? && forall k <- keys :: k in v.fields
    ensures MembersText(show, v, keys, x) != [] && (MembersText(show, v, keys, x)[0] == '}' <==> keys == [])
    ensures keys == [] ==> MembersText(show, v, keys, x)[1..] == x
  {
    if keys != [] {
      MemberStep(show, v, keys, x);
      assert Quoted(keys[0])[0] == '\"';
    } else {
      Cons('}', x);
      assert MembersText(show, v, keys, x) == "}" + x;
    }
  }

  lemma AfterMemberEnds(show: Printer, v: Json, keys: seq<string>, x: string)
    requires v.Obj? && keys != [] && forall k <- keys :: k in v.fields
    ensures var t := AfterMember(show, v, keys, x);
            Delimited(t) && t != [] && (t[0] == '}' <==>
                |keys| == 1) && t[1..] == if |keys| == 1 then x else MembersText(show, v, keys[1..], x)
  {
    if |keys| == 1 { Cons('}', x); } else { Cons(',', MembersText(show, v, keys[1..], x)); }
  }

  // ------------------------------------------------------------------
  // Equal texts, equal values
  // ------------------------------------------------------------------

  lemma {:induction false} ItemsUnique(show: Printer, a: Json, b: Json, i: nat, j: nat, x: string, y: string)
    requires PrintsNumbers(show) && Delimited(x) && Delimited(y) && a.Arr? && b.Arr? && i <= |a.items| && j <= |b.items|
    requires ItemsText(show, a, i, x) == ItemsText(show, b, j, y)
    ensures a.items[i..] == b.items[j..] && x == y
    decreases a, 0, |a.items| - i
  {
    ItemsEnd(show, a, i, x);
    ItemsEnd(show, b, j, y);
    if i < |a.items| {
      ItemStep(show, a, i, x);
      ItemStep(show, b, j, y);
      AfterItemEnds(show, a, i, x);
      AfterItemEnds(show, b, j, y);
      TextUnique(show, a.items[i], b.items[j], AfterItem(show, a, i, x), AfterItem(show, b, j, y));
      if i + 1 < |a.items| {
        ItemsUnique(show, a, b, i + 1, j + 1, x, y);
      }
      assert a.items[i..] == [a.items[i]] + a.items[i + 1..] && b.items[j..] == [b.items[j]] + b.items[j + 1..];
    }
  }

  lemma {:induction false} MembersUnique(show: Printer, a: Json, b: Json, ks: seq<string>, ls: seq<string>, x: string,
          y: string)
    requires PrintsNumbers(show) && Delimited(x) && Delimited(y) && a.Obj? && b.Obj?
    requires (forall k <- ks :: k in a.fields) && (forall k <- ls :: k in b.fields)
    requires MembersText(show, a, ks, x) == MembersText(show, b, ls, y)
    ensures ks == ls && x == y && forall k <- ks :: k in b.fields && a.fields[k] == b.fields[k]
    decreases a, 0, |ks|
  {
    MembersEnd(show, a, ks, x);
    MembersEnd(show, b, ls, y);
    if ks != [] {
      MemberStep(show, a, ks, x);
      MemberStep(show, b, ls, y);
      AfterMemberEnds(show, a, ks, x);
      AfterMemberEnds(show, b, ls, y);
      var u, v := Canonicalize(show, a.fields[ks[0]]) + AfterMember(show, a, ks, x),
          Canonicalize(show, b.fields[ls[0]]) + AfterMember(show, b, ls, y);
      QuotedUnique(ks[0], ls[0], ":" + u, ":" + v);
      Cons(':', u);
      Cons(':', v);
      TextUnique(show, a.fields[ks[0]], b.fields[ls[0]], AfterMember(show, a, ks, x), AfterMember(show, b, ls, y));
      if |ks| > 1 {
        MembersUnique(show, a, b, ks[1..], ls[1..], x, y);
      }
      assert ks == [ks[0]] + ks[1..] && ls == [ls[0]] + ls[1..];
    }
  }

  lemma ArrayText(show: Printer, v: Json, x: string)
    requires v.Arr?
    ensures var t := Canonicalize(show, v) + x; t != [] && t[1..] == ItemsText(show, v, 0, x)
  {
    Regroup("[", Join(Texts(show, v, 0), ","), "]", x);
    Cons('[', ItemsText(show, v, 0, x));
  }

  lemma ObjectText(show: Printer, v: Json, x: string)
    requires v.Obj?
    ensures var t := Canonicalize(show, v) + x; t != [] && t[1..] == MembersText(show, v, SortedKeys(v.fields.Keys), x)
  {
    var keys := SortedKeys(v.fields.Keys);
    Regroup("{", Join(Members(show, v, keys), ","), "}", x);
    Cons('{', MembersText(show, v, keys, x));
  }

  lemma LiteralUnique(literal: string, x: string, y: string)
    requires literal + x == literal + y
    ensures x == y
  {
    assert (literal + x)[|literal|..] == x && (literal + y)[|literal|..] == y;
  }

  /** A value's text, whatever delimiter follows it, is the text of no other value. */
  lemma {:induction false} TextUnique(show: Printer, a: Json, b: Json, x: string, y: string)
    requires PrintsNumbers(show) && Delimited(x) && Delimited(y)
    requires Canonicalize(show, a) + x == Canonicalize(show, b) + y
    ensures a == b && x == y
    decreases a, 1, 0
  {
    StartsWithKind(show, a, x);
    StartsWithKind(show, b, y);
    if a.Arr? {
      ArrayText(show, a, x);
      ArrayText(show, b, y);
      ItemsUnique(show, a, b, 0, 0, x, y);
      assert a.items[0..] == a.items && b.items[0..] == b.items;
    } else if a.Obj? {
      ObjectText(show, a, x);
      ObjectText(show, b, y);
      MembersUnique(show, a, b, SortedKeys(a.fields.Keys), SortedKeys(b.fields.Keys), x, y);
      assert a.fields == b.fields;
    } else if a.Num? {
      NumberUnique(show(a.number), show(b.number), x, y);
    } else if a.Str? {
      QuotedUnique(a.text, b.text, x, y);
    } else {
      LiteralUnique(Canonicalize(show, a), x, y);
    }
  }

  /** Two JSON values have one canonical text exactly when they are equal, objects as unordered maps. */
  lemma CanonicalIsIdentity(show: Printer, a: Json, b: Json)
    requires PrintsNumbers(show)
    ensures Canonicalize(show, a) == Canonicalize(show, b) <==> a == b
  {
    if Canonicalize(show, a) == Canonicalize(show, b) {
      assert Canonicalize(show, a) + [] == Canonicalize(show, b) + [];
      TextUnique(show, a, b, [], []);
    }
  }

  // ------------------------------------------------------------------
  // The identity of a JSON schema
  // ------------------------------------------------------------------

  ghost predicate Printable(s: string) { forall c <- s :: ' ' <= c }

  lemma {:induction false} JoinPrintable(xs: seq<string>)
    requires forall x <- xs :: Printable(x)
    ensures Printable(Join(xs, ","))
  {
    if xs != [] {
      assert xs[0] in xs;
      JoinPrintable(xs[1..]);
    }
  }

  lemma {:induction false} EscapedPrintable(s: string)
    ensures Printable(EscapeAll(s)) && Printable(Quoted(s))
  {
    if s != [] {
      EscapedPrintable(s[1..]);
      assert Printable(Escape(s[0]));
    }
  }

  lemma {:induction false} TextsPrintable(show: Printer, v: Json, i: nat)
    requires PrintsNumbers(show) && v.Arr? && i <= |v.items|
    ensures forall x <- Texts(show, v, i) :: Printable(x)
    decreases v, 0, |v.items| - i
  {
    if i < |v.items| {
      CanonicalPrintable(show, v.items[i]);
      TextsPrintable(show, v, i + 1);
    }
  }

  lemma {:induction false} MembersPrintable(show: Printer, v: Json, keys: seq<string>)
    requires PrintsNumbers(show) && v.Obj? && forall k <- keys :: k in v.fields
    ensures forall x <- Members(show, v, keys) :: Printable(x)
    decreases v, 0, |keys|
  {
    if keys != [] {
      EscapedPrintable(keys[0]);
      CanonicalPrintable(show, v.fields[keys[0]]);
      MembersPrintable(show, v, keys[1..]);
    }
  }

  /** Control characters are escaped, so no separator of the dedup key occurs. */
  lemma {:induction false} CanonicalPrintable(show: Printer, v: Json)
    requires PrintsNumbers(show)
    ensures Printable(Canonicalize(show, v))
    decreases v, 1, 0
  {
    if v.Arr? {
      TextsPrintable(show, v, 0);
      JoinPrintable(Texts(show, v, 0));
    } else if v.Obj? {
      MembersPrintable(show, v, SortedKeys(v.fields.Keys));
      JoinPrintable(Members(show, v, SortedKeys(v.fields.Keys)));
    } else if v.Str? {
      EscapedPrintable(v.text);
    } else if v.Num? {
      assert forall c <- show(v.number) :: NumberChar(c);
    }
  }

  /** Two JSON schemas share an id's identity exactly when they are equal JSON values with the same
      multiset of references and the same message type. */
  lemma JsonKeyIsIdentity(show: Printer, a: Json, aRefs: seq<Reference>, aType: Option<string>, b: Json,
          bRefs: seq<Reference>, bType: Option<string>)
    requires PrintsNumbers(show) && aType != Some("") && bType != Some("")
    requires (forall r <- aRefs :: CleanRef(r)) && (forall r <- bRefs :: CleanRef(r))
    ensures DedupKey(Canonicalize(show, a), aRefs, aType) == DedupKey(Canonicalize(show, b), bRefs, bType)
       <==> a == b && multiset(aRefs) == multiset(bRefs) && aType == bType
  {
    CanonicalPrintable(show, a);
    CanonicalPrintable(show, b);
    KeyIsIdentity(Canonicalize(show, a), aRefs, aType, Canonicalize(show, b), bRefs, bType);
    CanonicalIsIdentity(show, a, b);
  }
}
