/** The dedup key as an identity: what two schemas with one key have in common. */
module IdentityKeys {
  import opened Wrappers
  import opened Identity

  // ------------------------------------------------------------------
  // Separators
  // ------------------------------------------------------------------

  lemma SplitAt(a: string, x: string, b: string, y: string, c: char)
    requires c !in a && c !in b && a + [c] + x == b + [c] + y
    ensures a == b && x == y
  {
    var s, t := a + [c] + x, b + [c] + y;
    assert s[|a|] == c && t[|b|] == c;
    assert (forall i :: 0 <= i < |a| ==> s[i] == a[i]) && (forall i :: 0 <= i < |b| ==> t[i] == b[i]);
    assert s[..|a|] == a && t[..|b|] == b && s[|a| + 1..] == x && t[|b| + 1..] == y;
  }

  lemma JoinEmpty(xs: seq<string>, c: char)
    requires forall x <- xs :: x != []
    ensures Join(xs, [c]) == [] <==> xs == []
  {
    if xs != [] {
      assert xs[0] in xs;
    }
  }

  lemma {:induction false} JoinInjective(xs: seq<string>, ys: seq<string>, c: char)
    requires Join(xs, [c]) == Join(ys, [c])
    requires (forall x <- xs :: x != [] && c !in x) && (forall y <- ys :: y != [] && c !in y)
    ensures xs == ys
  {
    JoinEmpty(xs, c);
    JoinEmpty(ys, c);
    if xs != [] && ys != [] {
      assert xs[0] in xs && ys[0] in ys && xs == [xs[0]] + xs[1..] && ys == [ys[0]] + ys[1..];
      if |xs| > 1 {
        assert Join(xs, [c]) == xs[0] + [c] + Join(xs[1..], [c]);
        assert Join(xs, [c])[|xs[0]|] == c;
      }
      if |ys| > 1 {
        assert Join(ys, [c]) == ys[0] + [c] + Join(ys[1..], [c]);
        assert Join(ys, [c])[|ys[0]|] == c;
      }
      if |xs| > 1 && |ys| > 1 {
        assert (forall x <- xs[1..] :: x in xs) && (forall y <- ys[1..] :: y in ys);
        SplitAt(xs[0], Join(xs[1..], [c]), ys[0], Join(ys[1..], [c]), c);
        JoinInjective(xs[1..], ys[1..], c);
      }
    }
  }

  lemma {:induction false} JoinAvoids(xs: seq<string>, c: char, d: char)
    requires c != d && forall x <- xs :: d !in x
    ensures d !in Join(xs, [c])
  {
    if xs != [] {
      assert xs[0] in xs;
      JoinAvoids(xs[1..], c, d);
    }
  }

  // ------------------------------------------------------------------
  // Sorting
  // ------------------------------------------------------------------

  lemma {:induction false} InsertedContents(x: string, xs: seq<string>)
    ensures multiset(InsertString(x, xs)) == multiset([x]) + multiset(xs)
  {
    if !(xs == [] || Leq(x, xs[0])) {
      InsertedContents(x, xs[1..]);
      assert xs == [xs[0]] + xs[1..];
    }
  }

  lemma {:induction false} SortedContents(xs: seq<string>)
    ensures multiset(Sort(xs)) == multiset(xs)
  {
    if xs != [] {
      SortedContents(xs[1..]);
      InsertedContents(xs[0], Sort(xs[1..]));
      assert xs == [xs[0]] + xs[1..];
    }
  }

  lemma {:induction false} LeqTotal(a: string, b: string)
    ensures Leq(a, b) || Leq(b, a)
    ensures Leq(a, b) && Leq(b, a) ==> a == b
  {
    if a != [] && b != [] {
      LeqTotal(a[1..], b[1..]);
      assert a == [a[0]] + a[1..] && b == [b[0]] + b[1..];
    }
  }

  lemma {:induction false} LeqTransitive(a: string, b: string, c: string)
    requires Leq(a, b) && Leq(b, c)
    ensures Leq(a, c)
  {
    if a != [] && b != [] && c != [] && a[0] == b[0] == c[0] {
      LeqTransitive(a[1..], b[1..], c[1..]);
    }
  }

  ghost predicate Sorted(xs: seq<string>) {
    forall i, j :: 0 <= i < j < |xs| ==> Leq(xs[i], xs[j])
  }

  lemma {:induction false} InsertSorts(x: string, xs: seq<string>)
    requires Sorted(xs)
    ensures Sorted(InsertString(x, xs))
  {
    if xs == [] {
    } else if Leq(x, xs[0]) {
      forall j | 0 <= j < |xs| ensures Leq(x, xs[j]) {
        if j > 0 { LeqTransitive(x, xs[0], xs[j]); }
      }
    } else {
      InsertSorts(x, xs[1..]);
      LeqTotal(x, xs[0]);
      var rest := InsertString(x, xs[1..]);
      InsertedContents(x, xs[1..]);
      forall y <- rest ensures Leq(xs[0], y) {
        assert y in multiset(rest);
        assert y == x || y in xs[1..];
      }
    }
  }

  lemma {:induction false} SortSorts(xs: seq<string>)
    ensures Sorted(Sort(xs))
  {
    if xs != [] {
      SortSorts(xs[1..]);
      InsertSorts(xs[0], Sort(xs[1..]));
    }
  }

  lemma HeadIsLeast(xs: seq<string>, x: string)
    requires Sorted(xs) && x in xs
    ensures Leq(xs[0], x)
  {
    LeqTotal(x, x);
  }

  lemma TailContents(xs: seq<string>)
    requires xs != []
    ensures multiset(xs[1..]) == multiset(xs) - multiset([xs[0]]) && xs[0] in multiset(xs)
  {
    assert xs == [xs[0]] + xs[1..];
  }

  lemma {:induction false} SortedUnique(xs: seq<string>, ys: seq<string>)
    requires Sorted(xs) && Sorted(ys) && multiset(xs) == multiset(ys)
    ensures xs == ys
  {
    assert |multiset(xs)| == |xs| && |multiset(ys)| == |ys|;
    if xs != [] {
      TailContents(xs);
      TailContents(ys);
      HeadIsLeast(xs, ys[0]);
      HeadIsLeast(ys, xs[0]);
      LeqTotal(xs[0], ys[0]);
      SortedUnique(xs[1..], ys[1..]);
      assert xs == [xs[0]] + xs[1..] && ys == [ys[0]] + ys[1..];
    }
  }

  // ------------------------------------------------------------------
  // Fingerprints
  // ------------------------------------------------------------------

  lemma {:induction false} DigitsAreDigits(n: nat)
    ensures Digits(n) != [] && forall c <- Digits(n) :: '0' <= c <= '9'
  {
    if n >= 10 {
      DigitsAreDigits(n / 10);
    }
  }

  lemma {:induction false} DigitsInjective(a: nat, b: nat)
    requires Digits(a) == Digits(b)
    ensures a == b
  {
    DigitsAreDigits(a / 10);
    DigitsAreDigits(b / 10);
    if a >= 10 && b >= 10 {
      var da, db := Digits(a / 10), Digits(b / 10);
      assert Digits(a)[..|Digits(a)| - 1] == da && Digits(b)[..|Digits(b)| - 1] == db;
      assert Digits(a)[|Digits(a)| - 1] == '0' + (a % 10) as char;
      assert Digits(b)[|Digits(b)| - 1] == '0' + (b % 10) as char;
      DigitsInjective(a / 10, b / 10);
    } else if a < 10 && b < 10 {
      assert Digits(a)[0] == '0' + a as char && Digits(b)[0] == '0' + b as char;
    }
  }

  lemma DecimalInjective(a: int, b: int)
    ensures Decimal(a) == Decimal(b) ==> a == b
    ensures Decimal(a) != [] && forall c <- Decimal(a) :: c == '-' || '0' <= c <= '9'
  {
    DigitsAreDigits(if a < 0 then -a else a);
    DigitsAreDigits(if b < 0 then -b else b);
    if Decimal(a) == Decimal(b) {
      assert a >= 0 ==> Decimal(a)[0] in Digits(a);
      assert b >= 0 ==> Decimal(b)[0] in Digits(b);
      if a < 0 { assert Decimal(a)[1..] == Digits(-a) && Decimal(b)[1..] == Digits(-b); }
      DigitsInjective(if a < 0 then -a else a, if b < 0 then -b else b);
    }
  }

  /** Free of the separators U+0000 to U+0002. */
  ghost predicate Clean(s: string) { forall c <- s :: c > '\U{2}' }

  ghost predicate CleanRef(r: Reference) { Clean(r.name) && Clean(r.subject) }

  lemma FingerprintInjective(r: Reference, q: Reference)
    requires CleanRef(r) && CleanRef(q)
    ensures Fingerprint(r) == Fingerprint(q) ==> r == q
    ensures Fingerprint(r) != [] && '\U{0}' !in Fingerprint(r) && '\U{2}' !in Fingerprint(r)
  {
    DecimalInjective(r.version, q.version);
    var a, b := r.subject + "\U{1}" + Decimal(r.version), q.subject + "\U{1}" + Decimal(q.version);
    assert Fingerprint(r) == r.name + "\U{1}" + a && Fingerprint(q) == q.name + "\U{1}" + b;
    if Fingerprint(r) == Fingerprint(q) {
      SplitAt(r.name, a, q.name, b, '\U{1}');
      SplitAt(r.subject, Decimal(r.version), q.subject, Decimal(q.version), '\U{1}');
    }
  }

  lemma OneMoreOf<T>(front: seq<T>, last: T)
    ensures multiset(front + [last]) == multiset(front) + multiset([last])
  {}

  lemma {:induction false} FingerprintCount(refs: seq<Reference>, r: Reference)
    requires CleanRef(r) && forall q <- refs :: CleanRef(q)
    ensures multiset(Fingerprints(refs))[Fingerprint(r)] == multiset(refs)[r]
  {
    if refs != [] {
      var front, last := refs[..|refs| - 1], refs[|refs| - 1];
      FingerprintCount(front, r);
      FingerprintInjective(r, last);
      hide Fingerprint, CleanRef;
      OneMoreOf(front, last);
      assert refs == front + [last];
      OneMoreOf(Fingerprints(front), Fingerprint(last));
      assert Fingerprints(refs) == Fingerprints(front) + [Fingerprint(last)];
    }
  }

  function Except<T>(xs: seq<T>, i: nat): seq<T>
    requires i < |xs|
  {
    xs[..i] + xs[i + 1..]
  }

  lemma TakenOut<T>(xs: seq<T>, i: nat)
    requires i < |xs|
    ensures multiset(xs) == multiset(Except(xs, i)) + multiset([xs[i]])
  {
    assert xs == xs[..i] + [xs[i]] + xs[i + 1..];
  }

  lemma FingerprintsExcept(refs: seq<Reference>, i: nat)
    requires i < |refs|
    ensures Fingerprints(Except(refs, i)) == Except(Fingerprints(refs), i)
  {}

  lemma {:induction false} FingerprintsFollow(a: seq<Reference>, b: seq<Reference>)
    requires multiset(a) == multiset(b)
    ensures multiset(Fingerprints(a)) == multiset(Fingerprints(b))
    decreases |a|
  {
    assert |multiset(a)| == |a| && |multiset(b)| == |b|;
    if a != [] {
      assert a[0] in multiset(b);
      var i :| 0 <= i < |b| && b[i] == a[0];
      TakenOut(a, 0);
      TakenOut(b, i);
      assert multiset(Except(a, 0)) == multiset(a) - multiset([a[0]]);
      assert multiset(Except(b, i)) == multiset(b) - multiset([b[i]]);
      FingerprintsFollow(Except(a, 0), Except(b, i));
      FingerprintsExcept(a, 0);
      FingerprintsExcept(b, i);
      TakenOut(Fingerprints(a), 0);
      TakenOut(Fingerprints(b), i);
    }
  }

  lemma SameFingerprints(a: seq<Reference>, b: seq<Reference>)
    requires (forall r <- a :: CleanRef(r)) && (forall r <- b :: CleanRef(r))
    ensures multiset(Fingerprints(a)) == multiset(Fingerprints(b)) <==> multiset(a) == multiset(b)
  {
    if multiset(Fingerprints(a)) == multiset(Fingerprints(b)) {
      forall r ensures multiset(a)[r] == multiset(b)[r] {
        if CleanRef(r) {
          FingerprintCount(a, r);
          FingerprintCount(b, r);
        } else {
          assert r !in a && r !in b;
        }
      }
    } else if multiset(a) == multiset(b) {
      FingerprintsFollow(a, b);
    }
  }

  // ------------------------------------------------------------------
  // The key
  // ------------------------------------------------------------------

  function References(refs: seq<Reference>): string { Join(Sort(Fingerprints(refs)), "\U{2}") }

  function Type(messageType: Option<string>): string { match messageType case None => "" case Some(t) => t }

  lemma KeyParts(canonical: string, refs: seq<Reference>, messageType: Option<string>)
    ensures DedupKey(canonical, refs, messageType)
         == if refs == [] && messageType.None? then canonical
            else canonical + "\U{0}" + (References(refs) + "\U{0}" + Type(messageType))
  {}

  /** Equal keys have equal canonical forms, as long as those contain no U+0000. */
  lemma KeyFixesCanonical(a: string, aRefs: seq<Reference>, aType: Option<string>, b: string, bRefs: seq<Reference>,
          bType: Option<string>)
    requires '\U{0}' !in a && '\U{0}' !in b && DedupKey(a, aRefs, aType) == DedupKey(b, bRefs, bType)
    ensures a == b && (aRefs == [] && aType.None? <==> bRefs == [] && bType.None?)
    ensures !(aRefs == [] && aType.None?) ==>
          References(aRefs) + "\U{0}" + Type(aType) == References(bRefs) + "\U{0}" + Type(bType)
  {
    KeyParts(a, aRefs, aType);
    KeyParts(b, bRefs, bType);
    var x, y := References(aRefs) + "\U{0}" + Type(aType), References(bRefs) + "\U{0}" + Type(bType);
    var bareA, bareB := aRefs == [] && aType.None?, bRefs == [] && bType.None?;
    if !bareA { assert DedupKey(a, aRefs, aType)[|a|] == '\U{0}'; }
    if !bareB { assert DedupKey(b, bRefs, bType)[|b|] == '\U{0}'; }
    if !bareA && !bareB { SplitAt(a, x, b, y, '\U{0}'); }
  }

  lemma FingerprintsClean(refs: seq<Reference>)
    requires forall r <- refs :: CleanRef(r)
    ensures forall x <- Sort(Fingerprints(refs)) :: x != [] && '\U{2}' !in x && '\U{0}' !in x
    ensures '\U{0}' !in References(refs)
  {
    SortedContents(Fingerprints(refs));
    forall x <- Sort(Fingerprints(refs))
      ensures x != [] && '\U{2}' !in x && '\U{0}' !in x
    {
      assert x in multiset(Fingerprints(refs));
      var i :| 0 <= i < |refs| && Fingerprints(refs)[i] == x;
      assert refs[i] in refs;
      FingerprintInjective(refs[i], refs[i]);
    }
    JoinAvoids(Sort(Fingerprints(refs)), '\U{2}', '\U{0}');
  }

  lemma ReferencesIff(a: seq<Reference>, b: seq<Reference>)
    requires (forall r <- a :: CleanRef(r)) && (forall r <- b :: CleanRef(r))
    ensures References(a) == References(b) <==> multiset(a) == multiset(b)
  {
    var fa, fb := Fingerprints(a), Fingerprints(b);
    SameFingerprints(a, b);
    SortedContents(fa);
    SortedContents(fb);
    if References(a) == References(b) {
      FingerprintsClean(a);
      FingerprintsClean(b);
      JoinInjective(Sort(fa), Sort(fb), '\U{2}');
    }
    if multiset(a) == multiset(b) {
      SortSorts(fa);
      SortSorts(fb);
      SortedUnique(Sort(fa), Sort(fb));
    }
  }

  /** The message types of two schemas share keys: they are equal, or neither names a message while there
      are references. */
  predicate SameType(aType: Option<string>, bType: Option<string>, refs: seq<Reference>) {
    aType == bType || (refs != [] && aType in {None, Some("")} && bType in {None, Some("")})
  }

  lemma TypesIff(a: Option<string>, b: Option<string>, aRefs: seq<Reference>, bRefs: seq<Reference>)
    requires aRefs == [] <==> bRefs == []
    ensures SameType(a, b, aRefs) <==> (aRefs == [] ==> (a.None? <==> b.None?)) && Type(a) == Type(b)
  {}

  /** Two schemas have one key exactly when they agree in canonical form, multiset of references and message
      type, where the empty message type counts as none once there are references. No part may contain a
      separator. */
  lemma KeyIff(a: string, aRefs: seq<Reference>, aType: Option<string>, b: string, bRefs: seq<Reference>,
          bType: Option<string>)
    requires '\U{0}' !in a && '\U{0}' !in b
    requires (forall r <- aRefs :: CleanRef(r)) && (forall r <- bRefs :: CleanRef(r))
    ensures DedupKey(a, aRefs, aType) == DedupKey(b, bRefs, bType) <==>
            a == b && multiset(aRefs) == multiset(bRefs) && SameType(aType, bType, aRefs)
  {
    assert |multiset(aRefs)| == |aRefs| && |multiset(bRefs)| == |bRefs|;
    ReferencesIff(aRefs, bRefs);
    KeyParts(a, aRefs, aType);
    KeyParts(b, bRefs, bType);
    if DedupKey(a, aRefs, aType) == DedupKey(b, bRefs, bType) {
      KeyFixesCanonical(a, aRefs, aType, b, bRefs, bType);
      if !(aRefs == [] && aType.None?) {
        FingerprintsClean(aRefs);
        FingerprintsClean(bRefs);
        SplitAt(References(aRefs), Type(aType), References(bRefs), Type(bType), '\U{0}');
      }
    }
    if multiset(aRefs) == multiset(bRefs) { TypesIff(aType, bType, aRefs, bRefs); }
  }

  /** The empty message type apart, that is equality of all three. */
  lemma KeyIsIdentity(a: string, aRefs: seq<Reference>, aType: Option<string>, b: string, bRefs: seq<Reference>,
          bType: Option<string>)
    requires '\U{0}' !in a && '\U{0}' !in b && aType != Some("") && bType != Some("")
    requires (forall r <- aRefs :: CleanRef(r)) && (forall r <- bRefs :: CleanRef(r))
    ensures DedupKey(a, aRefs, aType) == DedupKey(b, bRefs, bType) <==>
          a == b && multiset(aRefs) == multiset(bRefs) && aType == bType
  {
    KeyIff(a, aRefs, aType, b, bRefs, bType);
  }

  /** The collision itself. */
  lemma EmptyTypeCollides(canonical: string, refs: seq<Reference>)
    requires refs != []
    ensures DedupKey(canonical, refs, Some("")) == DedupKey(canonical, refs, None)
  {}
}
