/**
 Verification subjects list capabilities, cases and data modes in any order; the
 signed form and the comparison sort them first.  Sorting loses nothing but the
 order, so two subjects agree exactly when they hold the same entries as often.
 */
module VerificationSubject {

  // ---- The order of strings --------------------------------------------------------------

  predicate Below(a: string, b: string)
    decreases |a|
  {
    if b == [] then false
    else if a == [] then true
    else if a[0] != b[0] then a[0] < b[0]
    else Below(a[1..], b[1..])
  }

  /** The two agree on their first n characters, where the first ends or has the smaller character. */
  predicate BelowAt(a: string, b: string, n: nat) {
    n <= |a| && n < |b| && a[..n] == b[..n] && (n == |a| || a[n] < b[n])
  }

  lemma {:induction false} BelowIsLexicographic(a: string, b: string)
    ensures Below(a, b) <==> exists n: nat :: BelowAt(a, b, n)
    decreases |a|
  {
    if b != [] && (a == [] || a[0] < b[0]) {
      assert BelowAt(a, b, 0);
    } else if b != [] && a[0] == b[0] {
      BelowIsLexicographic(a[1..], b[1..]);
      if n: nat :| BelowAt(a[1..], b[1..], n) {
        assert a[..n + 1] == [a[0]] + a[1..][..n] && b[..n + 1] == [b[0]] + b[1..][..n];
        assert BelowAt(a, b, n + 1);
      }
      if n: nat :| BelowAt(a, b, n) {
        assert n > 0 && a[1..][..n - 1] == a[..n][1..] && b[1..][..n - 1] == b[..n][1..];
        assert BelowAt(a[1..], b[1..], n - 1);
      }
    }
  }

  lemma {:induction false} BelowTotal(a: string, b: string)
    ensures Below(a, b) || Below(b, a) || a == b
    ensures !(Below(a, b) && Below(b, a)) && (a == b ==> !Below(a, b))
    decreases |a|
  {
    if a != [] && b != [] && a[0] == b[0] {
      BelowTotal(a[1..], b[1..]);
      assert a == [a[0]] + a[1..] && b == [b[0]] + b[1..];
    }
  }

  lemma {:induction false} BelowTransitive(a: string, b: string, c: string)
    requires Below(a, b) && Below(b, c)
    ensures Below(a, c)
    decreases |a|
  {
    if a != [] && a[0] == b[0] && b[0] == c[0] { BelowTransitive(a[1..], b[1..], c[1..]); }
  }

  // ---- Sorting ---------------------------------------------------------------------------

  ghost predicate Sorted(s: seq<string>) {
    forall i, j :: 0 <= i < j < |s| ==> !Below(s[j], s[i])
  }

  function Place(s: seq<string>, x: string): (k: nat)
    ensures k <= |s| && (forall i :: 0 <= i < k ==> !Below(x, s[i])) && (k < |s| ==> Below(x, s[k]))
  {
    if s == [] || Below(x, s[0]) then 0 else 1 + Place(s[1..], x)
  }

  function Insert(s: seq<string>, x: string): (r: seq<string>)
    requires Sorted(s)
    ensures Sorted(r) && multiset(r) == multiset(s) + multiset{x}
  {
    var k := Place(s, x);
    assert s == s[..k] + s[k..];
    InsertSorted(s, x, k);
    s[..k] + [x] + s[k..]
  }

  /** A sorted copy; the library's sort leaves the same one, as there is only one. */
  function SortedCopy(s: seq<string>): (r: seq<string>)
    ensures Sorted(r) && multiset(r) == multiset(s)
    decreases |s|
  {
    if s == [] then []
    else
      assert s == s[..|s| - 1] + [s[|s| - 1]];
      Insert(SortedCopy(s[..|s| - 1]), s[|s| - 1])
  }

  lemma InsertSorted(s: seq<string>, x: string, k: nat)
    requires Sorted(s) && k <= |s| && (forall i :: 0 <= i < k ==> !Below(x, s[i])) && (k < |s| ==> Below(x, s[k]))
    ensures Sorted(s[..k] + [x] + s[k..])
  {
    forall j | k <= j < |s| ensures !Below(s[j], x) {
      if Below(s[j], x) { BelowTransitive(s[j], x, s[k]); BelowTotal(s[k], s[k]); }
    }
  }

  lemma FirstIsLeast(s: seq<string>, x: string)
    requires Sorted(s) && s != [] && x in s
    ensures !Below(x, s[0])
  {
    BelowTotal(s[0], s[0]);
  }

  lemma SameFirst(a: seq<string>, b: seq<string>)
    requires Sorted(a) && Sorted(b) && a != [] && b != [] && a[0] in b && b[0] in a
    ensures a[0] == b[0]
  {
    hide Below;
    FirstIsLeast(a, b[0]);
    FirstIsLeast(b, a[0]);
    BelowTotal(a[0], b[0]);
  }

  lemma TailOf(s: seq<string>)
    requires s != []
    ensures multiset(s[1..]) == multiset(s) - multiset{s[0]} && (Sorted(s) ==> Sorted(s[1..]))
  {
    assert s == [s[0]] + s[1..];
  }

  lemma SameLength(a: seq<string>, b: seq<string>)
    requires multiset(a) == multiset(b)
    ensures |a| == |b| && (a != [] ==> a[0] in b && b[0] in a)
  {
    assert |multiset(a)| == |a| && |multiset(b)| == |b|;
    if a != [] {
      assert a[0] in multiset(b) && b[0] in multiset(a);
    }
  }

  /** There is only one way to sort, so what the sort does in between cannot be observed. */
  lemma {:induction false} SortedUnique(a: seq<string>, b: seq<string>)
    requires Sorted(a) && Sorted(b) && multiset(a) == multiset(b)
    ensures a == b
    decreases |a|
  {
    hide Sorted;
    SameLength(a, b);
    if a != [] {
      SameFirst(a, b);
      TailOf(a);
      TailOf(b);
      SortedUnique(a[1..], b[1..]);
      assert a == [a[0]] + a[1..] && b == [b[0]] + b[1..];
    }
  }

  // ---- Subjects --------------------------------------------------------------------------

  datatype Subject = Subject(
    provider: string, nativeArtifact: string, platform: string, capabilities: seq<string>, cases: seq<string>,
    suiteVersion: string, suiteDigest: string, configurationDigest: string, dataModes: seq<string>)

  /** The same subject, whatever the order of its lists. */
  ghost predicate SameScope(a: Subject, b: Subject) {
    && a == b.(capabilities := a.capabilities, cases := a.cases, dataModes := a.dataModes)
    && multiset(a.capabilities) == multiset(b.capabilities) && multiset(a.cases) == multiset(b.cases)
    && multiset(a.dataModes) == multiset(b.dataModes)
  }

  ghost predicate CanonicalFormOf(c: Subject, s: Subject) {
    SameScope(c, s) && Sorted(c.capabilities) && Sorted(c.cases) && Sorted(c.dataModes)
  }

  function Canonical(s: Subject): (c: Subject)
    ensures CanonicalFormOf(c, s)
  {
    s.(capabilities := SortedCopy(s.capabilities), cases := SortedCopy(s.cases), dataModes := SortedCopy(s.dataModes))
  }

  /** Canonical forms are equal exactly for subjects that differ in order alone, so a signature over one covers the
      other. */
  lemma CanonicalFormsAgree(a: Subject, b: Subject)
    ensures Canonical(a) == Canonical(b) <==> SameScope(a, b)
  {
    hide SortedCopy, Sorted;
    var ca, cb := Canonical(a), Canonical(b);
    if SameScope(a, b) {
      SortedUnique(ca.capabilities, cb.capabilities);
      SortedUnique(ca.cases, cb.cases);
      SortedUnique(ca.dataModes, cb.dataModes);
    }
  }

  method EqualStrings(left: seq<string>, right: seq<string>) returns (r: bool)
    ensures r <==> left == right
  {
    if |left| != |right| { return false; }
    for i := 0 to |left|
      invariant forall j :: 0 <= j < i ==> left[j] == right[j]
    {
      if left[i] != right[i] { return false; }
    }
    return true;
  }

  method EqualSubject(a: Subject, b: Subject) returns (r: bool)
    ensures r <==> SameScope(a, b)
  {
    var ca := Canonical(a);
    var cb := Canonical(b);
    CanonicalFormsAgree(a, b);
    hide Canonical;
    if ca.provider != cb.provider || ca.nativeArtifact != cb.nativeArtifact || ca.platform != cb.platform
       || ca.suiteVersion != cb.suiteVersion || ca.suiteDigest != cb.suiteDigest
       || ca.configurationDigest != cb.configurationDigest {
      return false;
    }
    var capabilities := EqualStrings(ca.capabilities, cb.capabilities);
    if !capabilities { return false; }
    var dataModes := EqualStrings(ca.dataModes, cb.dataModes);
    if !dataModes { return false; }
    r := EqualStrings(ca.cases, cb.cases);
  }
}
