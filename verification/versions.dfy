/** Finding a version by name (protocol/registry.go): an exact match, or else the greatest known patch
    of the same release that is not beyond the one asked for. */
module Versions {
  import opened Packets

  // ---------------------------------------------------------------- reading a release number

  /** The numbers of a release string; a missing patch counts as 0. */
  datatype Release = Release(major: int, minor: int, patch: int, hasPatch: bool)

  const MAX_INT: int := 0x7FFF_FFFF_FFFF_FFFF

  predicate IsDigit(c: char) { '0' <= c <= '9' }

  function Digits(s: string): nat
    requires forall c :: c in s ==> IsDigit(c)
  {
    if s == [] then 0
    else
      assert IsDigit(s[|s| - 1]);
      10 * Digits(s[..|s| - 1]) + (s[|s| - 1] - '0') as int
  }

  predicate IsSigned(s: string) { s != [] && (s[0] == '+' || s[0] == '-') }

  /** strconv.Atoi: an optional sign and decimal digits, within a 64-bit integer. */
  function Atoi(s: string): Option<int>
  {
    var body := if IsSigned(s) then s[1..] else s;
    if body == [] || !forall c :: c in body ==> IsDigit(c) then None
    else
      var size: int := Digits(body);
      var n := if s[0] == '-' then -size else size;
      if -MAX_INT - 1 <= n <= MAX_INT then Some(n) else None
  }

  /** strings.Split at the dots. */
  function Split(s: string): (parts: seq<string>)
    ensures parts != []
    ensures forall p :: p in parts ==> '.' !in p
  {
    if s == [] then [[]]
    else
      var tail := Split(s[1..]);
      if s[0] == '.' then [[]] + tail else [[s[0]] + tail[0]] + tail[1..]
  }

  function ParseRelease(s: string): Option<Release>
  {
    var parts := Split(s);
    if |parts| != 2 && |parts| != 3 then None
    else
      var major := Atoi(parts[0]);
      var minor := Atoi(parts[1]);
      if major.None? || minor.None? then None
      else if |parts| == 2 then Some(Release(major.value, minor.value, 0, false))
      else
        var patch := Atoi(parts[2]);
        if patch.None? then None else Some(Release(major.value, minor.value, patch.value, true))
  }

  // ---------------------------------------------------------------- it reads what is written

  function Decimal(n: nat): (s: string)
    ensures s != []
  {
    var digit := [(n % 10) as char + '0'];
    if n < 10 then digit else Decimal(n / 10) + digit
  }

  lemma {:induction false} DecimalReadsBack(n: nat)
    ensures forall c :: c in Decimal(n) ==> IsDigit(c)
    ensures Digits(Decimal(n)) == n
  {
    var s := Decimal(n);
    if n >= 10 {
      DecimalReadsBack(n / 10);
      assert s[..|s| - 1] == Decimal(n / 10);
    } else {
      assert s[..0] == [];
      assert Digits(s[..0]) == 0;
    }
  }

  lemma {:induction false} AtoiReadsBack(n: nat)
    requires n <= MAX_INT
    ensures Atoi(Decimal(n)) == Some(n)
  {
    DecimalReadsBack(n);
    assert Decimal(n)[0] in Decimal(n);
  }

  lemma {:induction false} SplitPart(a: string, rest: string)
    requires '.' !in a
    ensures Split(a + "." + rest) == [a] + Split(rest)
    ensures Split(a) == [a]
  {
    if a == [] {
      assert [] + "." + rest == "." + rest && ("." + rest)[1..] == rest;
    } else {
      var s := a + "." + rest;
      SplitPart(a[1..], rest);
      assert s[1..] == a[1..] + "." + rest;
      assert [a[0]] + a[1..] == a;
    }
  }

  lemma {:induction false} NoDots(n: nat)
    ensures '.' !in Decimal(n)
  {
    DecimalReadsBack(n);
  }

  /** A release written out in decimal is read back, with and without a patch. */
  lemma {:induction false} ReleaseReadsBack(major: nat, minor: nat, patch: nat)
    requires major <= MAX_INT && minor <= MAX_INT && patch <= MAX_INT
    ensures ParseRelease(Decimal(major) + "." + Decimal(minor)) == Some(Release(major, minor, 0, false))
    ensures ParseRelease(Decimal(major) + "." + (Decimal(minor) + "." + Decimal(patch))) == Some(Release(major, minor, patch, true))
  {
    NoDots(major);
    NoDots(minor);
    NoDots(patch);
    AtoiReadsBack(major);
    AtoiReadsBack(minor);
    AtoiReadsBack(patch);
    SplitPart(Decimal(major), Decimal(minor));
    SplitPart(Decimal(minor), Decimal(patch));
    SplitPart(Decimal(patch), []);
    SplitPart(Decimal(major), Decimal(minor) + "." + Decimal(patch));
  }

  // ---------------------------------------------------------------- the search

  type Known = map<string, int>

  /** The known release k is of the release asked for, and not beyond the patch asked for. The search
      starts from patch -1, so a negative patch is never taken. */
  predicate Eligible(q: Release, k: string)
  {
    match ParseRelease(k)
    case None => false
    case Some(r) => r.major == q.major && r.minor == q.minor && !(q.hasPatch && r.patch > q.patch) && r.patch >= 0
  }

  function PatchOf(k: string): int
    requires ParseRelease(k).Some?
  {
    ParseRelease(k).value.patch
  }

  /** k is an eligible one of the names, with the greatest patch. */
  ghost predicate Best(names: set<string>, q: Release, k: string)
  {
    k in names && Eligible(q, k) && forall j :: j in names && Eligible(q, j) ==> PatchOf(j) <= PatchOf(k)
  }

  /** What the search over all known names may return. */
  ghost predicate Found(known: Known, q: Release, r: Option<int>)
  {
    match r
    case None => forall k :: k in known ==> !Eligible(q, k)
    case Some(v) => exists k :: Best(known.Keys, q, k) && known[k] == v
  }

  /** What VersionFromString may return. */
  ghost predicate Answer(known: Known, s: string, r: Option<int>)
  {
    if s in known then r == Some(known[s])
    else
      match ParseRelease(s)
      case None => r == None
      case Some(q) => Found(known, q, r)
  }

  /** The best patch and version after the names seen so far, in whatever order. */
  ghost predicate BestSoFar(known: Known, seen: set<string>, q: Release, bestPatch: int, bestVersion: int)
  {
    if bestPatch < 0 then bestPatch == -1 && forall k :: k in seen ==> !Eligible(q, k)
    else exists k :: k in known && Best(seen, q, k) && PatchOf(k) == bestPatch && known[k] == bestVersion
  }

  lemma {:induction false} SeeOne(known: Known, seen: set<string>, q: Release, bestPatch: int, bestVersion: int, k: string)
    requires BestSoFar(known, seen, q, bestPatch, bestVersion) && k in known
    ensures if Eligible(q, k) && PatchOf(k) > bestPatch then BestSoFar(known, seen + {k}, q, PatchOf(k), known[k])
            else BestSoFar(known, seen + {k}, q, bestPatch, bestVersion)
  {
    if Eligible(q, k) && PatchOf(k) > bestPatch {
      assert Best(seen + {k}, q, k);
    } else if bestPatch >= 0 {
      var b :| b in known && Best(seen, q, b) && PatchOf(b) == bestPatch && known[b] == bestVersion;
      assert Best(seen + {k}, q, b);
    }
  }

  method VersionFromString(known: Known, s: string) returns (r: Option<int>)
    ensures Answer(known, s, r)
  {
    if s in known {
      return Some(known[s]);
    }
    var parsed := ParseRelease(s);
    if parsed.None? {
      return None;
    }
    r := Search(known, parsed.value);
  }

  /** The loop of VersionFromString: the names are visited in any order. */
  method Search(known: Known, q: Release) returns (r: Option<int>)
    ensures Found(known, q, r)
  {
    var bestPatch := -1;
    var bestVersion := 0;
    var left := known.Keys;
    ghost var seen := {};
    while left != {}
      invariant seen + left == known.Keys
      invariant BestSoFar(known, seen, q, bestPatch, bestVersion)
      decreases |left|
    {
      var k :| k in left;
      SeeOne(known, seen, q, bestPatch, bestVersion, k);
      left := left - {k};
      seen := seen + {k};
      var release := ParseRelease(k);
      if release.None? || release.value.major != q.major || release.value.minor != q.minor {
        continue;
      }
      if q.hasPatch && release.value.patch > q.patch {
        continue;
      }
      if release.value.patch > bestPatch {
        bestPatch := release.value.patch;
        bestVersion := known[k];
      }
    }
    r := if bestPatch >= 0 then Some(bestVersion) else None;
    SeenAll(known, seen, q, bestPatch, bestVersion, r);
  }

  lemma {:induction false} SeenAll(known: Known, seen: set<string>, q: Release, bestPatch: int, bestVersion: int, r: Option<int>)
    requires BestSoFar(known, seen, q, bestPatch, bestVersion) && seen == known.Keys
    requires r == if bestPatch >= 0 then Some(bestVersion) else None
    ensures Found(known, q, r)
  {
  }

  // ---------------------------------------------------------------- what it returns

  predicate SameRelease(j: string, k: string)
  {
    && ParseRelease(j).Some? && ParseRelease(k).Some?
    && ParseRelease(j).value.major == ParseRelease(k).value.major
    && ParseRelease(j).value.minor == ParseRelease(k).value.minor
  }

  /** No two known names are read as the same three numbers. */
  ghost predicate Distinct(known: Known)
  {
    forall j, k :: j in known && k in known && SameRelease(j, k) && PatchOf(j) == PatchOf(k) ==> j == k
  }

  /** Over distinct numbers the answer does not depend on the order the names are visited in... */
  lemma {:induction false} AnswerUnique(known: Known, s: string, r1: Option<int>, r2: Option<int>)
    requires Distinct(known) && Answer(known, s, r1) && Answer(known, s, r2)
    ensures r1 == r2
  {
    if s !in known && ParseRelease(s).Some? {
      FoundUnique(known, ParseRelease(s).value, r1, r2);
    }
  }

  lemma {:induction false} EligibleSame(p: Release, q: Release, j: string, k: string)
    requires Eligible(p, j) && Eligible(q, k) && p.major == q.major && p.minor == q.minor
    ensures SameRelease(j, k)
  {
  }

  lemma {:induction false} BestUnique(known: Known, q: Release, j: string, k: string)
    requires Distinct(known) && Best(known.Keys, q, j) && Best(known.Keys, q, k)
    ensures j == k
  {
    EligibleSame(q, q, j, k);
    assert PatchOf(j) == PatchOf(k);
  }

  lemma {:induction false} FoundUnique(known: Known, q: Release, r1: Option<int>, r2: Option<int>)
    requires Distinct(known) && Found(known, q, r1) && Found(known, q, r2)
    ensures r1 == r2
  {
    if r1.Some? && r2.Some? {
      var k1 :| Best(known.Keys, q, k1) && known[k1] == r1.value;
      var k2 :| Best(known.Keys, q, k2) && known[k2] == r2.value;
      BestUnique(known, q, k1, k2);
    }
  }

  /** For a name with all three numbers the exact match is what the search finds anyway, unless its
      patch is negative. */
  lemma {:induction false} ExactAgrees(known: Known, s: string, r: Option<int>)
    requires Distinct(known) && s in known && ParseRelease(s).Some? && ParseRelease(s).value.hasPatch
    ensures Found(known, ParseRelease(s).value, Some(known[s])) <==> PatchOf(s) >= 0
    ensures PatchOf(s) >= 0 && Found(known, ParseRelease(s).value, r) ==> Answer(known, s, r)
  {
    var q := ParseRelease(s).value;
    if PatchOf(s) >= 0 {
      assert Best(known.Keys, q, s);
      if Found(known, q, r) {
        FoundUnique(known, q, r, Some(known[s]));
      }
    }
  }

  /** Version numbers grow with the patch within a release. */
  ghost predicate Ascending(known: Known)
  {
    forall j, k :: j in known && k in known && SameRelease(j, k) && PatchOf(j) <= PatchOf(k) ==> known[j] <= known[k]
  }

  lemma {:induction false} StillEligible(q1: Release, q2: Release, k: string)
    requires Eligible(q1, k) && q1.major == q2.major && q1.minor == q2.minor
    requires !q2.hasPatch || (q1.hasPatch && q1.patch <= q2.patch)
    ensures Eligible(q2, k)
  {
  }

  /** The search over all known names, an exact match aside, finds at least as much for a later patch of
      a release, and for no patch in particular. */
  lemma {:induction false} LaterPatchFindsLater(known: Known, q1: Release, q2: Release, r1: Option<int>, r2: Option<int>)
    requires Ascending(known) && Found(known, q1, r1) && Found(known, q2, r2)
    requires q1.major == q2.major && q1.minor == q2.minor
    requires !q2.hasPatch || (q1.hasPatch && q1.patch <= q2.patch)
    requires r1.Some?
    ensures r2.Some? && r1.value <= r2.value
  {
    var k1 :| Best(known.Keys, q1, k1) && known[k1] == r1.value;
    StillEligible(q1, q2, k1);
    var k2 :| Best(known.Keys, q2, k2) && known[k2] == r2.value;
    EligibleSame(q1, q2, k1, k2);
    assert PatchOf(k1) <= PatchOf(k2);
  }

  /** A string with all three numbers and a patch that is not negative. */
  predicate IsFull(s: string) { ParseRelease(s).Some? && ParseRelease(s).value.hasPatch && PatchOf(s) >= 0 }

  /** A string without a patch. */
  predicate IsShort(s: string) { ParseRelease(s).Some? && !ParseRelease(s).value.hasPatch }

  /** For a full string the answer, exact or not, is what the search finds. */
  lemma {:induction false} FullSearched(known: Known, s: string, r: Option<int>)
    requires Distinct(known) && IsFull(s) && Answer(known, s, r)
    ensures Found(known, ParseRelease(s).value, r)
  {
    if s in known {
      ExactAgrees(known, s, r);
    }
  }

  /** Asking for t finds at least as much as asking for s: if s finds something, t finds something, and
      nothing older. */
  ghost predicate FindsAtLeast(known: Known, t: string, s: string)
  {
    forall rt, rs :: Answer(known, t, rt) && Answer(known, s, rs) && rs.Some? ==> rt.Some? && rs.value <= rt.value
  }

  predicate HasPatch(s: string) { ParseRelease(s).Some? && ParseRelease(s).value.hasPatch }

  /** s is itself known, and under a negative patch, which the search never takes. */
  predicate KnownBelowZero(known: Known, s: string)
    requires HasPatch(s)
  {
    s in known && PatchOf(s) < 0
  }

  /** Nothing is found for s: it is not known, and nothing is eligible. */
  ghost predicate Unanswered(known: Known, s: string)
    requires HasPatch(s)
  {
    s !in known && forall k :: k in known ==> !Eligible(ParseRelease(s).value, k)
  }

  /** VersionFromString is monotone in the requested patch, exact matches included, if and only if it is
      not the case that the earlier string is known under a negative patch and the later one finds
      nothing. */
  lemma {:induction false} AnswerMonotone(known: Known, s: string, t: string)
    requires Distinct(known) && Ascending(known)
    requires HasPatch(s) && HasPatch(t) && SameRelease(s, t) && PatchOf(s) <= PatchOf(t)
    ensures FindsAtLeast(known, t, s) <==> !(KnownBelowZero(known, s) && Unanswered(known, t))
  {
    if KnownBelowZero(known, s) && Unanswered(known, t) {
      assert Answer(known, t, None) && Answer(known, s, Some(known[s]));
      assert !FindsAtLeast(known, t, s);
    } else {
      Monotone(known, s, t);
    }
  }

  lemma {:induction false} Monotone(known: Known, s: string, t: string)
    requires Ascending(known) && HasPatch(s) && HasPatch(t) && SameRelease(s, t) && PatchOf(s) <= PatchOf(t)
    requires !(KnownBelowZero(known, s) && Unanswered(known, t))
    ensures FindsAtLeast(known, t, s)
  {
    forall rt, rs | Answer(known, t, rt) && Answer(known, s, rs) && rs.Some?
      ensures rt.Some? && rs.value <= rt.value
    {
      if s in known {
        KnownMonotone(known, s, t, rt);
      } else {
        SearchedMonotone(known, s, t, rt, rs);
      }
    }
  }

  /** What is found for a later patch than that of a known name is no older than the name. */
  lemma {:induction false} KnownMonotone(known: Known, s: string, t: string, rt: Option<int>)
    requires Ascending(known) && HasPatch(s) && HasPatch(t) && SameRelease(s, t) && PatchOf(s) <= PatchOf(t)
    requires s in known && Answer(known, t, rt) && !(KnownBelowZero(known, s) && Unanswered(known, t))
    ensures rt.Some? && known[s] <= rt.value
  {
    var q := ParseRelease(t).value;
    if t !in known {
      if PatchOf(s) >= 0 {
        assert Eligible(q, s);
      }
      var k :| Best(known.Keys, q, k) && known[k] == rt.value;
      EligibleRelease(q, k, t);
      assert SameRelease(s, k) && PatchOf(s) <= PatchOf(k);
    }
  }

  lemma {:induction false} EligibleRelease(q: Release, k: string, t: string)
    requires Eligible(q, k) && ParseRelease(t) == Some(q)
    ensures SameRelease(k, t) && 0 <= PatchOf(k)
  {
  }

  /** A name found by the search has a patch that is not negative, so a known later string is no older,
      and the search for it finds no less. */
  lemma {:induction false} SearchedMonotone(known: Known, s: string, t: string, rt: Option<int>, rs: Option<int>)
    requires Ascending(known) && HasPatch(s) && HasPatch(t) && SameRelease(s, t) && PatchOf(s) <= PatchOf(t)
    requires s !in known && Answer(known, t, rt) && Answer(known, s, rs) && rs.Some?
    ensures rt.Some? && rs.value <= rt.value
  {
    var q := ParseRelease(s).value;
    if t in known {
      var k :| Best(known.Keys, q, k) && known[k] == rs.value;
      EligibleRelease(q, k, s);
      EligiblePatch(q, k);
      assert SameRelease(k, t) && PatchOf(k) <= PatchOf(t);
    } else {
      LaterPatchFindsLater(known, q, ParseRelease(t).value, rs, rt);
    }
  }

  lemma {:induction false} EligiblePatch(q: Release, k: string)
    requires Eligible(q, k) && q.hasPatch
    ensures PatchOf(k) <= q.patch
  {
  }

  /** No eligible name of the release has a greater version than the short name t itself. */
  ghost predicate Newest(known: Known, t: string)
    requires ParseRelease(t).Some? && t in known
  {
    forall k :: k in known && Eligible(ParseRelease(t).value, k) ==> known[k] <= known[t]
  }

  /** Asking without a patch finds at least as much as asking for any patch of the release, if and only
      if the short name is unknown or itself the newest of the release: a known short name answers for
      itself. */
  lemma {:induction false} ShortFindsMost(known: Known, t: string)
    requires Distinct(known) && Ascending(known) && IsShort(t)
    ensures (forall s :: IsFull(s) && SameRelease(s, t) ==> FindsAtLeast(known, t, s))
       <==> t !in known || Newest(known, t)
  {
    if t !in known || Newest(known, t) {
      forall s | IsFull(s) && SameRelease(s, t)
        ensures FindsAtLeast(known, t, s)
      {
        ShortFindsAtLeast(known, t, s);
      }
    } else {
      var k :| k in known && Eligible(ParseRelease(t).value, k) && known[k] > known[t];
      NewerIsFull(known, t, k);
      assert Answer(known, t, Some(known[t])) && Answer(known, k, Some(known[k]));
      assert !FindsAtLeast(known, t, k);
    }
  }

  lemma {:induction false} ShortFindsAtLeast(known: Known, t: string, s: string)
    requires Distinct(known) && Ascending(known) && IsShort(t) && (t !in known || Newest(known, t))
    requires IsFull(s) && SameRelease(s, t)
    ensures FindsAtLeast(known, t, s)
  {
    var qs := ParseRelease(s).value;
    var qt := ParseRelease(t).value;
    forall rt, rs | Answer(known, t, rt) && Answer(known, s, rs) && rs.Some?
      ensures rt.Some? && rs.value <= rt.value
    {
      FullSearched(known, s, rs);
      if t in known {
        var k :| Best(known.Keys, qs, k) && known[k] == rs.value;
        StillEligible(qs, qt, k);
      } else {
        LaterPatchFindsLater(known, qs, qt, rs, rt);
      }
    }
  }

  /** A name of the release with a greater version is written with its patch: a short one would have
      the same numbers. */
  lemma {:induction false} NewerIsFull(known: Known, t: string, k: string)
    requires Distinct(known) && IsShort(t) && t in known && k in known
    requires Eligible(ParseRelease(t).value, k) && known[k] > known[t]
    ensures IsFull(k) && SameRelease(k, t)
  {
    EligibleSame(ParseRelease(t).value, ParseRelease(t).value, k, k);
    assert SameRelease(k, t);
    ShortPatch(t);
    OtherPatch(known, k, t);
  }

  lemma {:induction false} OtherPatch(known: Known, j: string, k: string)
    requires Distinct(known) && j in known && k in known && SameRelease(j, k) && j != k
    ensures PatchOf(j) != PatchOf(k)
  {
  }

  lemma {:induction false} ShortPatch(s: string)
    requires IsShort(s)
    ensures PatchOf(s) == 0
  {
  }

  // ---------------------------------------------------------------- the shipped names

  /** The releases of stringToVersion, in the order of their version numbers. */
  const RELEASES: seq<Release> := [
    Release(1, 7, 0, false), Release(1, 8, 0, false), Release(1, 9, 0, false), Release(1, 9, 2, true),
    Release(1, 9, 4, true), Release(1, 10, 0, false), Release(1, 11, 0, false), Release(1, 12, 0, false),
    Release(1, 12, 1, true), Release(1, 12, 2, true), Release(1, 13, 0, false), Release(1, 13, 1, true),
    Release(1, 13, 2, true), Release(1, 14, 0, false), Release(1, 14, 1, true), Release(1, 14, 3, true),
    Release(1, 14, 4, true), Release(1, 15, 0, false), Release(1, 15, 1, true), Release(1, 15, 2, true),
    Release(1, 16, 0, false), Release(1, 16, 1, true), Release(1, 16, 2, true), Release(1, 17, 0, false),
    Release(1, 17, 1, true), Release(1, 18, 0, false), Release(1, 18, 2, true), Release(1, 19, 0, false),
    Release(1, 19, 2, true), Release(1, 19, 3, true), Release(1, 19, 4, true), Release(1, 20, 0, false),
    Release(1, 20, 2, true), Release(1, 20, 3, true), Release(1, 20, 5, true), Release(1, 21, 1, true),
    Release(1, 21, 3, true), Release(1, 21, 4, true), Release(1, 21, 5, true), Release(1, 21, 6, true),
    Release(1, 21, 8, true), Release(1, 21, 9, true), Release(1, 21, 11, true)
  ]

  function Name(r: Release): string
    requires r.major >= 0 && r.minor >= 0 && r.patch >= 0
  {
    Decimal(r.major) + "." + if r.hasPatch then Decimal(r.minor) + "." + Decimal(r.patch) else Decimal(r.minor)
  }

  predicate Below(a: Release, b: Release)
  {
    a.major == b.major == 1 && (a.minor < b.minor || (a.minor == b.minor && a.patch < b.patch))
  }

  predicate Plain(r: Release)
  {
    r.major == 1 && 0 <= r.minor < 100 && 0 <= r.patch < 100 && (!r.hasPatch ==> r.patch == 0)
  }

  /** Each release is below the next. */
  predicate InPlace(i: nat)
    requires i < |RELEASES|
  {
    Plain(RELEASES[i]) && (i > 0 ==> Below(RELEASES[i - 1], RELEASES[i]))
  }

  lemma {:induction false} FirstInPlace(i: nat)
    requires i < 8
    ensures InPlace(i)
  {
  }

  lemma {:induction false} EarlyInPlace(i: nat)
    requires 8 <= i < 15
    ensures InPlace(i)
  {
  }

  lemma {:induction false} NextInPlace(i: nat)
    requires 15 <= i < 29
    ensures InPlace(i)
  {
  }

  lemma {:induction false} LastInPlace(i: nat)
    requires 29 <= i < |RELEASES|
    ensures InPlace(i)
  {
  }

  lemma {:induction false} AllInPlace(i: nat)
    requires i < |RELEASES|
    ensures InPlace(i)
  {
    if i < 8 {
      FirstInPlace(i);
    } else if i < 15 {
      EarlyInPlace(i);
    } else if i < 29 {
      NextInPlace(i);
    } else {
      LastInPlace(i);
    }
  }

  /** Each release is plain, and below all the later ones. */
  predicate Ordered(releases: seq<Release>)
  {
    && (forall i :: 0 <= i < |releases| ==> Plain(releases[i]))
    && (forall i, j :: 0 <= i < j < |releases| ==> Below(releases[i], releases[j]))
  }

  /** Each release is plain, and below the next. */
  predicate Rising(releases: seq<Release>)
  {
    && (forall i :: 0 <= i < |releases| ==> Plain(releases[i]))
    && (forall i :: 0 < i < |releases| ==> Below(releases[i - 1], releases[i]))
  }

  lemma {:induction false} BelowLater(releases: seq<Release>, i: nat, j: nat)
    requires Rising(releases) && i < j < |releases|
    ensures Below(releases[i], releases[j])
    decreases j
  {
    var last: nat := j - 1;
    assert Below(releases[last], releases[j]);
    if i < last {
      BelowLater(releases, i, last);
    }
  }

  lemma {:induction false} RisingOrdered(releases: seq<Release>)
    requires Rising(releases)
    ensures Ordered(releases)
  {
    forall i, j | 0 <= i < j < |releases|
      ensures Below(releases[i], releases[j])
    {
      BelowLater(releases, i, j);
    }
  }

  lemma {:induction false} ReleasesOrdered()
    ensures Ordered(RELEASES)
  {
    forall i | 0 <= i < |RELEASES|
      ensures InPlace(i)
    {
      AllInPlace(i);
    }
    assert Rising(RELEASES) by {
      forall i | 0 <= i < |RELEASES|
        ensures Plain(RELEASES[i])
        ensures i > 0 ==> Below(RELEASES[i - 1], RELEASES[i])
      {
        assert InPlace(i);
      }
    }
    RisingOrdered(RELEASES);
  }

  /** The table of some releases: each name with its place in the list. */
  function Table(releases: seq<Release>): Known
    requires Ordered(releases)
  {
    if releases == [] then map[]
    else
      var last := |releases| - 1;
      Table(releases[..last])[Name(releases[last]) := last]
  }

  lemma {:induction false} NameReadsBack(r: Release)
    requires Plain(r)
    ensures ParseRelease(Name(r)) == Some(r)
  {
    ReleaseReadsBack(r.major, r.minor, r.patch);
  }

  /** Which names are in the table, and under which numbers. */
  lemma {:induction false} TableEntry(releases: seq<Release>, k: string)
    requires Ordered(releases) && k in Table(releases)
    ensures 0 <= Table(releases)[k] < |releases| && k == Name(releases[Table(releases)[k]])
  {
    var last := |releases| - 1;
    if k != Name(releases[last]) {
      TableEntry(releases[..last], k);
    }
  }

  /** Each name is in the table, under its number. */
  lemma {:induction false} TableName(releases: seq<Release>, i: nat)
    requires Ordered(releases) && i < |releases|
    ensures Name(releases[i]) in Table(releases) && Table(releases)[Name(releases[i])] == i
  {
    var last := |releases| - 1;
    if i < last {
      TableName(releases[..last], i);
      NameReadsBack(releases[i]);
      NameReadsBack(releases[last]);
      assert Below(releases[i], releases[last]);
    }
  }

  lemma {:induction false} PairInOrder(releases: seq<Release>, j: string, k: string)
    requires Ordered(releases) && j in Table(releases) && k in Table(releases) && SameRelease(j, k)
    ensures PatchOf(j) == PatchOf(k) ==> j == k
    ensures PatchOf(j) <= PatchOf(k) ==> Table(releases)[j] <= Table(releases)[k]
  {
    var a := Table(releases)[j];
    var b := Table(releases)[k];
    TableEntry(releases, j);
    TableEntry(releases, k);
    NameReadsBack(releases[a]);
    NameReadsBack(releases[b]);
    assert a < b ==> Below(releases[a], releases[b]);
    assert b < a ==> Below(releases[b], releases[a]);
  }

  lemma {:induction false} TableInOrder(releases: seq<Release>)
    requires Ordered(releases)
    ensures Distinct(Table(releases)) && Ascending(Table(releases))
  {
    var known := Table(releases);
    forall j, k | j in known && k in known && SameRelease(j, k)
      ensures PatchOf(j) == PatchOf(k) ==> j == k
      ensures PatchOf(j) <= PatchOf(k) ==> known[j] <= known[k]
    {
      PairInOrder(releases, j, k);
    }
  }

  /** The shipped table. */
  function Shipped(): Known
  {
    ReleasesOrdered();
    Table(RELEASES)
  }

  /** The shipped names are distinct and ascending, so VersionFromString is a function over them, and
      the laws of the requested patch apply. */
  lemma {:induction false} ShippedInOrder()
    ensures Distinct(Shipped()) && Ascending(Shipped())
  {
    ReleasesOrdered();
    TableInOrder(RELEASES);
  }

  /** The version numbers at which the packets change are those of these releases. */
  lemma {:induction false} GateReleases()
    ensures |RELEASES| == LATEST + 1
    ensures RELEASES[V1_7] == Release(1, 7, 0, false)
    ensures RELEASES[V1_8] == Release(1, 8, 0, false)
    ensures RELEASES[V1_9] == Release(1, 9, 0, false)
    ensures RELEASES[V1_12_2] == Release(1, 12, 2, true)
    ensures RELEASES[V1_16] == Release(1, 16, 0, false)
    ensures RELEASES[V1_17_1] == Release(1, 17, 1, true)
    ensures RELEASES[V1_18] == Release(1, 18, 0, false)
    ensures RELEASES[V1_19] == Release(1, 19, 0, false)
    ensures RELEASES[V1_19_2] == Release(1, 19, 2, true)
    ensures RELEASES[V1_20_2] == Release(1, 20, 2, true)
    ensures RELEASES[V1_20_5] == Release(1, 20, 5, true)
    ensures RELEASES[V1_21_1] == Release(1, 21, 1, true)
    ensures RELEASES[V1_21_3] == Release(1, 21, 3, true)
  {
  }

  lemma {:induction false} TwoNames()
    ensures Name(Release(1, 9, 0, false)) == "1.9" && Name(Release(1, 9, 4, true)) == "1.9.4"
    ensures RELEASES[2] == Release(1, 9, 0, false) && RELEASES[4] == Release(1, 9, 4, true)
  {
    assert Decimal(1) == "1" && Decimal(9) == "9" && Decimal(4) == "4";
    assert "1" + "." + "9" == "1.9";
    assert "1" + "." + ("9" + "." + "4") == "1.9.4";
  }

  /** So over the shipped names asking without a patch can find less: 1.9 is found as itself, and 1.9.4
      is newer. */
  lemma {:induction false} ShortFindsLess()
    ensures IsShort("1.9") && IsFull("1.9.4") && SameRelease("1.9.4", "1.9")
    ensures Answer(Shipped(), "1.9", Some(2)) && Answer(Shipped(), "1.9.4", Some(4))
    ensures !FindsAtLeast(Shipped(), "1.9", "1.9.4")
  {
    TwoNames();
    NameReadsBack(Release(1, 9, 0, false));
    NameReadsBack(Release(1, 9, 4, true));
    ReleasesOrdered();
    TableName(RELEASES, 2);
    TableName(RELEASES, 4);
    AnswersApart(Shipped(), "1.9", "1.9.4", 2, 4);
  }

  lemma {:induction false} AnswersApart(known: Known, t: string, s: string, vt: int, vs: int)
    requires t in known && s in known && known[t] == vt && known[s] == vs && vt < vs
    ensures Answer(known, t, Some(vt)) && Answer(known, s, Some(vs)) && !FindsAtLeast(known, t, s)
  {
    assert Answer(known, t, Some(vt)) && Answer(known, s, Some(vs));
  }
}
