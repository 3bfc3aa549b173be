/** What a reference text names: a place in its own document, or a registry reference. */
module JsonPointers {
  import opened Wrappers
  import opened Canonical
  import Identity
  import opened JsonDiff
  import opened JsonCompare

  // ------------------------------------------------------------------
  // Places and how they are written
  // ------------------------------------------------------------------

  datatype Place = Key(name: string) | Index(i: nat)

  function At(v: Json, path: seq<Place>): Option<Json> {
    if path == [] then Some(v)
    else match (v, path[0])
      case (Obj(fields), Key(k)) => if k in fields then At(fields[k], path[1..]) else None
      case (Arr(items), Index(i)) => if i < |items| then At(items[i], path[1..]) else None
      case _ => None
  }

  function Escape(name: string): string {
    if name == [] then []
    else (if name[0] == '~' then "~0" else if name[0] == '/' then "~1" else [name[0]]) + Escape(name[1..])
  }

  function Token(p: Place): string { match p case Key(name) => Escape(name) case Index(i) => Identity.Digits(i) }

  /** The pointer to a path, as in section 3 of RFC 6901. */
  function Written(path: seq<Place>): string {
    if path == [] then [] else "/" + Token(path[0]) + Written(path[1..])
  }

  function TokensOf(path: seq<Place>): seq<string> { if path == [] then [] else [Token(path[0])] + TokensOf(path[1..]) }

  // ------------------------------------------------------------------
  // Tokens
  // ------------------------------------------------------------------

  predicate NoSlash(s: string) { forall i :: 0 <= i < |s| ==> s[i] != '/' }

  predicate IsNumeral(s: string) { forall i :: 0 <= i < |s| ==> '0' <= s[i] <= '9' }

  lemma {:induction false} EscapeIsUndone(name: string)
    ensures NoSlash(Escape(name)) && Unescape(Escape(name)) == name
  {
    if name != [] {
      EscapeIsUndone(name[1..]);
      var rest := Escape(name[1..]);
      if name[0] == '~' || name[0] == '/' {
        assert Escape(name)[2..] == rest;
      } else {
        assert Escape(name)[1..] == rest;
      }
      assert name == [name[0]] + name[1..];
    }
  }

  lemma {:induction false} ParsedDigits(s: string, t: string, value: nat)
    ensures ParseDigits(s + t, value) ==
              match ParseDigits(s, value) case Some(x) => ParseDigits(t, x) case None => None
  {
    if s == [] {
      assert s + t == t;
    } else {
      assert (s + t)[1..] == s[1..] + t;
      if '0' <= s[0] <= '9' { ParsedDigits(s[1..], t, 10 * value + (s[0] as int - '0' as int)); }
    }
  }

  lemma {:induction false} NumeralIsUndone(n: nat)
    ensures var s := Identity.Digits(n);
            s != [] && ParseDigits(s, 0) == Some(n) && (s[0] == '0' ==> n == 0 && |s| == 1)
    ensures IsNumeral(Identity.Digits(n))
  {
    var last := ['0' + (n % 10) as char];
    if n >= 10 {
      NumeralIsUndone(n / 10);
      ParsedDigits(Identity.Digits(n / 10), last, 0);
      assert last[1..] == [];
    }
  }

  lemma {:induction false} NumeralIsPlain(s: string)
    requires IsNumeral(s)
    ensures NoSlash(s) && Unescape(s) == s
  {
    if s != [] {
      NumeralIsPlain(s[1..]);
      assert s == [s[0]] + s[1..];
    }
  }

  lemma {:induction false} FirstToken(s: string, rest: string)
    requires NoSlash(s)
    ensures Tokens(s) == [s] && Tokens(s + "/" + rest) == [s] + Tokens(rest)
  {
    var all := s + "/" + rest;
    if s == [] {
      assert all[0] == '/' && all[1..] == rest;
    } else {
      FirstToken(s[1..], rest);
      assert all[0] == s[0] && all[1..] == s[1..] + "/" + rest;
      assert s == [s[0]] + s[1..];
    }
  }

  lemma TokenIsUndone(p: Place)
    ensures NoSlash(Token(p))
    ensures match p case Key(name) => Unescape(Token(p)) == name
                    case Index(i) => ParseIndex(Unescape(Token(p))) == Some(i)
  {
    match p
    case Key(name) => EscapeIsUndone(name);
    case Index(i) =>
      NumeralIsUndone(i);
      NumeralIsPlain(Identity.Digits(i));
  }

  lemma {:induction false} WrittenSplit(path: seq<Place>)
    requires path != []
    ensures Written(path) != [] && Written(path)[0] == '/'
    ensures Written(path)[1..] == Token(path[0]) + Written(path[1..])
    ensures TokensOf(path) == [Token(path[0])] + TokensOf(path[1..])
  {
    hide Token;
    var first, rest := Token(path[0]), Written(path[1..]);
    assert Written(path) == "/" + first + rest;
  }

  lemma {:induction false} WrittenTokens(path: seq<Place>)
    requires path != []
    ensures Tokens(Written(path)[1..]) == TokensOf(path)
  {
    hide Token, Tokens, NoSlash, Written, TokensOf;
    var first, rest := Token(path[0]), path[1..];
    TokenIsUndone(path[0]);
    WrittenSplit(path);
    if rest == [] {
      FirstToken(first, "");
      LastSplit();
      assert first + [] == first;
    } else {
      WrittenTokens(rest);
      WrittenSplit(rest);
      var tail := Written(rest)[1..];
      FirstToken(first, tail);
      assert first + Written(rest) == first + "/" + tail;
    }
  }

  lemma LastSplit()
    ensures Written([]) == [] && TokensOf([]) == []
  {}

  // ------------------------------------------------------------------
  // Pointers
  // ------------------------------------------------------------------

  lemma {:induction false} WalkedTokens(v: Json, path: seq<Place>)
    requires At(v, path).Some?
    ensures Walk(v, TokensOf(path)) == At(v, path)
  {
    if path != [] {
      TokenIsUndone(path[0]);
      assert TokensOf(path)[1..] == TokensOf(path[1..]);
      match (v, path[0])
      case (Obj(fields), Key(k)) => WalkedTokens(fields[k], path[1..]);
      case (Arr(items), Index(i)) => WalkedTokens(items[i], path[1..]);
    }
  }

  lemma {:induction false} WalkedIsPart(v: Json, tokens: seq<string>) returns (path: seq<Place>)
    requires Walk(v, tokens).Some?
    ensures At(v, path) == Walk(v, tokens)
  {
    path := [];
    if tokens != [] {
      var token := Unescape(tokens[0]);
      match v
      case Obj(fields) =>
        var rest := WalkedIsPart(fields[token], tokens[1..]);
        path := [Key(token)] + rest;
        assert path[1..] == rest;
      case Arr(items) =>
        var rest := WalkedIsPart(items[ParseIndex(token).value], tokens[1..]);
        path := [Index(ParseIndex(token).value)] + rest;
        assert path[1..] == rest;
    }
  }

  /** The pointer written for a place of a document leads back to it, whatever its names contain. */
  lemma PointerRoundTrip(root: Json, path: seq<Place>)
    requires At(root, path).Some?
    ensures Pointer(root, Written(path)) == At(root, path)
  {
    if path != [] {
      WrittenSplit(path);
      WrittenTokens(path);
      WalkedTokens(root, path);
    }
  }

  /** A pointer leads nowhere but to a place of the document. */
  lemma PointerIsPlace(root: Json, pointer: string) returns (path: seq<Place>)
    requires Pointer(root, pointer).Some?
    ensures At(root, path) == Pointer(root, pointer)
  {
    path := [];
    if pointer != [] { path := WalkedIsPart(root, Tokens(pointer[1..])); }
  }

  // ------------------------------------------------------------------
  // References
  // ------------------------------------------------------------------

  predicate IsLocal(text: string) { text != [] && text[0] == '#' }

  // The first registry reference of a name.
  ghost predicate FirstNamed(refs: RefMap, name: string, x: Json) {
    exists i :: 0 <= i < |refs| && refs[i] == (name, x) && forall j :: 0 <= j < i ==> refs[j].0 != name
  }

  /** The reference of a schema means another one: at a place of its own document, or registered by name. */
  ghost predicate Means(side: Side, s: Json, x: Json) {
    && RefOf(s).Some?
    && var text := RefOf(s).value;
       if IsLocal(text) then exists path :: text == "#" + Written(path) && At(side.root, path) == Some(x)
       else FirstNamed(side.refs, text, x)
  }

  lemma {:induction false} FirstIsNamed(refs: RefMap, name: string)
    ensures match Named(refs, name)
            case Some(x) => FirstNamed(refs, name, x)
            case None => forall r <- refs :: r.0 != name
    ensures forall x :: FirstNamed(refs, name, x) ==> Named(refs, name) == Some(x)
  {
    if refs != [] {
      FirstIsNamed(refs[1..], name);
      assert refs == [refs[0]] + refs[1..];
      forall x | FirstNamed(refs[1..], name, x) && refs[0].0 != name ensures FirstNamed(refs, name, x) {
        var i :| 0 <= i < |refs[1..]| && refs[1..][i] == (name, x) && forall j :: 0 <= j < i ==> refs[1..][j].0 != name;
        assert refs[i + 1] == (name, x);
        forall j | 0 <= j < i + 1 ensures refs[j].0 != name { if j > 0 { assert refs[j] == refs[1..][j - 1]; } }
      }
      forall x | FirstNamed(refs, name, x) && refs[0].0 != name ensures FirstNamed(refs[1..], name, x) {
        var i :| 0 <= i < |refs| && refs[i] == (name, x) && forall j :: 0 <= j < i ==> refs[j].0 != name;
        assert refs[1..][i - 1] == (name, x);
        forall j | 0 <= j < i - 1 ensures refs[1..][j].0 != name { assert refs[1..][j] == refs[j + 1]; }
      }
    }
  }

  lemma MeaningIsResolved(side: Side, s: Json, x: Json)
    requires Means(side, s, x)
    ensures Resolved(side, s) == Some(x)
  {
    var text := RefOf(s).value;
    if IsLocal(text) {
      var path :| text == "#" + Written(path) && At(side.root, path) == Some(x);
      assert text[1..] == Written(path);
      PointerRoundTrip(side.root, path);
    } else {
      FirstIsNamed(side.refs, text);
    }
  }

  /** What a schema stands for: the meaning of its reference, or itself without one. */
  ghost predicate StandsFor(side: Side, s: Json, x: Json) { if RefOf(s).Some? then Means(side, s, x) else x == s }

  /** Comparing references is comparing what each means in its own document, once around a cycle. */
  lemma ReferencesAreFollowed(env: Env, fuel: nat, c: Context, o: Json, u: Json, x: Json, y: Json)
    requires fuel > 0 && (RefOf(o).Some? || RefOf(u).Some?)
    requires StandsFor(c.orig, o, x) && StandsFor(c.upd, u, y)
    ensures Compare(env, fuel, c, o, u) ==
              if GuardKey(o, u) in c.visited then Some([])
              else Compare(env, fuel - 1, c.(visited := c.visited + {GuardKey(o, u)}), x, y)
  {
    hide Resolved, Means, RefOf, Leading, Trailing, CompareCombinators, GuardKey;
    if RefOf(o).Some? { MeaningIsResolved(c.orig, o, x); } else { Unreferring(c.orig, o); }
    if RefOf(u).Some? { MeaningIsResolved(c.upd, u, y); } else { Unreferring(c.upd, u); }
  }

  lemma Unreferring(side: Side, s: Json)
    requires RefOf(s).None?
    ensures Resolved(side, s).None?
  {}
}
