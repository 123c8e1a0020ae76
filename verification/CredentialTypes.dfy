/** Credential-type inheritance: the `extends` graph and `getParentTypes`. */
module CredentialTypes {
  import opened Wrappers

  type TypeName = string

  /** The known credential types. `None` stands for a type without an `extends` field. */
  type Catalog = map<TypeName, Option<seq<TypeName>>>

  function Extends(c: Catalog, t: TypeName): seq<TypeName> {
    if t in c then c[t].GetOr([]) else []
  }

  // ---------------------------------------------------------------- ancestry

  /** A line climbs the `extends` relation one declared parent at a time. */
  ghost predicate IsLine(c: Catalog, p: seq<TypeName>) {
    |p| >= 1 && forall i {:trigger Extends(c, p[i])} :: 0 <= i < |p| - 1 ==> p[i + 1] in Extends(c, p[i])
  }

  ghost predicate IsLineFrom(c: Catalog, p: seq<TypeName>, t: TypeName, a: TypeName) {
    IsLine(c, p) && p[0] == t && p[|p| - 1] == a
  }

  /** `a` is a proper ancestor of `t`. */
  ghost predicate Ancestor(c: Catalog, a: TypeName, t: TypeName) {
    exists p :: IsLineFrom(c, p, t, a) && |p| >= 2
  }

  ghost predicate Acyclic(c: Catalog) {
    forall t :: !Ancestor(c, t, t)
  }

  ghost predicate SingleParent(c: Catalog) {
    forall t :: |Extends(c, t)| <= 1
  }

  lemma JoinLines(c: Catalog, p: seq<TypeName>, q: seq<TypeName>)
    requires IsLine(c, p) && IsLine(c, q) && p[|p| - 1] == q[0]
    ensures IsLine(c, p[..|p| - 1] + q)
    ensures (p[..|p| - 1] + q)[0] == p[0]
  {
  }

  lemma ParentIsAncestor(c: Catalog, p: TypeName, t: TypeName)
    requires p in Extends(c, t)
    ensures Ancestor(c, p, t)
  {
    assert IsLineFrom(c, [t, p], t, p);
  }

  lemma AncestorTransitive(c: Catalog, a: TypeName, b: TypeName, t: TypeName)
    requires Ancestor(c, a, b) && Ancestor(c, b, t)
    ensures Ancestor(c, a, t)
  {
    var p :| IsLineFrom(c, p, t, b) && |p| >= 2;
    var q :| IsLineFrom(c, q, b, a) && |q| >= 2;
    JoinLines(c, p, q);
    assert IsLineFrom(c, p[..|p| - 1] + q, t, a);
  }

  /** An ancestor is a parent or an ancestor of a parent. */
  lemma AncestorViaParent(c: Catalog, a: TypeName, t: TypeName) returns (p: TypeName)
    requires Ancestor(c, a, t)
    ensures p in Extends(c, t) && (a == p || Ancestor(c, a, p))
  {
    var l :| IsLineFrom(c, l, t, a) && |l| >= 2;
    p := l[1];
    if |l| > 2 {
      assert IsLineFrom(c, l[1..], p, a);
    }
  }

  // ---------------------------------------------------------------- rank

  ghost function Mentioned(c: Catalog): set<TypeName> {
    set t, p | t in c && p in Extends(c, t) :: p
  }

  ghost function Ancestors(c: Catalog, t: TypeName): set<TypeName> {
    set a | a in Mentioned(c) && Ancestor(c, a, t)
  }

  lemma AncestorsComplete(c: Catalog, a: TypeName, t: TypeName)
    ensures a in Ancestors(c, t) <==> Ancestor(c, a, t)
  {
    if Ancestor(c, a, t) {
      var l :| IsLineFrom(c, l, t, a) && |l| >= 2;
      assert l[|l| - 2 + 1] in Extends(c, l[|l| - 2]);
      assert l[|l| - 2] in c;
    }
  }

  /** The number of proper ancestors: the measure every recursion over the graph decreases. */
  ghost function Rank(c: Catalog, t: TypeName): nat {
    |Ancestors(c, t)|
  }

  lemma SubsetSmaller<T>(a: set<T>, b: set<T>)
    requires a < b
    ensures |a| < |b|
  {
    var x :| x in b && x !in a;
    assert |b - {x}| == |b| - 1;
    SubsetNotLarger(a, b - {x});
  }

  lemma SubsetNotLarger<T>(a: set<T>, b: set<T>)
    requires a <= b
    ensures |a| <= |b|
  {
    if a != {} {
      var x :| x in a;
      SubsetNotLarger(a - {x}, b - {x});
    }
  }

  /** On an acyclic graph a declared parent has strictly fewer ancestors than its child. */
  lemma RankDecreases(c: Catalog, p: TypeName, t: TypeName)
    requires Acyclic(c) && p in Extends(c, t)
    ensures Rank(c, p) < Rank(c, t)
  {
    ParentIsAncestor(c, p, t);
    AncestorsComplete(c, p, t);
    AncestorsComplete(c, p, p);
    forall a | a in Ancestors(c, p) ensures a in Ancestors(c, t) {
      AncestorTransitive(c, a, p, t);
      AncestorsComplete(c, a, t);
    }
    SubsetSmaller(Ancestors(c, p), Ancestors(c, t));
  }

  ghost predicate Ranks(c: Catalog, rank: TypeName -> nat) {
    forall t, p :: p in Extends(c, t) ==> rank(p) < rank(t)
  }

  /** Any ranking of the types that falls along `extends` shows there is no cycle. */
  lemma RankedIsAcyclic(c: Catalog, rank: TypeName -> nat)
    requires Ranks(c, rank)
    ensures Acyclic(c)
  {
    forall t ensures !Ancestor(c, t, t) {
      if Ancestor(c, t, t) {
        var p :| IsLineFrom(c, p, t, t) && |p| >= 2;
        RankFallsAlongLine(c, rank, p);
      }
    }
  }

  lemma RankFallsAlongLine(c: Catalog, rank: TypeName -> nat, p: seq<TypeName>)
    requires Ranks(c, rank) && IsLine(c, p) && |p| >= 2
    ensures rank(p[|p| - 1]) < rank(p[0])
  {
    assert p[1] in Extends(c, p[0]);
    if |p| > 2 {
      assert IsLine(c, p[1..]);
      RankFallsAlongLine(c, rank, p[1..]);
    }
  }

  lemma AncestorRank(c: Catalog, a: TypeName, t: TypeName)
    requires Acyclic(c) && Ancestor(c, a, t)
    ensures Rank(c, a) < Rank(c, t)
    decreases Rank(c, t)
  {
    var p := AncestorViaParent(c, a, t);
    RankDecreases(c, p, t);
    if a != p {
      AncestorRank(c, a, p);
    }
  }

  // ---------------------------------------------------------------- termination measure

  ghost predicate WidthBound(c: Catalog, width: nat) {
    forall t :: |Extends(c, t)| <= width
  }

  lemma WidthExists(c: Catalog) returns (width: nat)
    ensures WidthBound(c, width)
    decreases |c|
  {
    if c == map[] {
      width := 0;
    } else {
      var t :| t in c;
      var rest := c - {t};
      var w := WidthExists(rest);
      width := if w < |Extends(c, t)| then |Extends(c, t)| else w;
      forall u ensures |Extends(c, u)| <= width {
        if u in c && u != t { assert Extends(c, u) == Extends(rest, u); }
      }
    }
  }

  /** An upper bound on how many list entries one entry of rank `k` can give rise to. */
  ghost function Weight(width: nat, k: nat): (w: nat)
    ensures w >= 1
  {
    if k == 0 then 1 else Weight(width, k - 1) + Fan(width, Weight(width, k - 1))
  }

  function Fan(width: nat, w: nat): nat {
    width * w * w
  }

  lemma WeightGrows(width: nat, j: nat, k: nat)
    requires j <= k
    ensures Weight(width, j) <= Weight(width, k)
  {
  }

  ghost function Load(c: Catalog, width: nat, s: seq<TypeName>): nat {
    if s == [] then 0 else Weight(width, Rank(c, s[0])) + Load(c, width, s[1..])
  }

  lemma LoadAppend(c: Catalog, width: nat, s: seq<TypeName>, r: seq<TypeName>)
    ensures Load(c, width, s + r) == Load(c, width, s) + Load(c, width, r)
  {
    if s == [] {
      assert s + r == r;
    } else {
      LoadAppend(c, width, s[1..], r);
      assert (s + r)[1..] == s[1..] + r;
    }
  }

  lemma LoadBound(c: Catalog, width: nat, s: seq<TypeName>, k: nat)
    requires forall x :: x in s ==> Rank(c, x) <= k
    ensures Load(c, width, s) <= |s| * Weight(width, k)
  {
    if s != [] {
      WeightGrows(width, Rank(c, s[0]), k);
      LoadBound(c, width, s[1..], k);
      assert |s| * Weight(width, k) == Weight(width, k) + (|s| - 1) * Weight(width, k);
    }
  }

  /** How long the list of parents of `t` can get. */
  ghost function LengthBound(c: Catalog, width: nat, t: TypeName): nat {
    if Rank(c, t) == 0 then 0 else width * Weight(width, Rank(c, t) - 1)
  }

  lemma LoadOfAncestors(c: Catalog, width: nat, t: TypeName, s: seq<TypeName>)
    requires forall x :: x in s ==> Rank(c, x) < Rank(c, t)
    ensures |s| <= LengthBound(c, width, t) ==> Load(c, width, s) < Weight(width, Rank(c, t))
    ensures |s| <= width ==> Load(c, width, s) <= LengthBound(c, width, t)
  {
    if s != [] {
      assert s[0] in s;
      var w := Weight(width, Rank(c, t) - 1);
      LoadBound(c, width, s, Rank(c, t) - 1);
      FanBounds(|s|, width, w);
    }
  }

  lemma FanBounds(n: nat, width: nat, w: nat)
    ensures n <= width * w ==> n * w <= Fan(width, w)
    ensures n <= width ==> n * w <= width * w
  {
    if n <= width * w { MulMonotone(n, width * w, w); }
    if n <= width { MulMonotone(n, width, w); }
  }

  lemma LoadOfParents(c: Catalog, width: nat, t: TypeName, s: seq<TypeName>)
    requires Acyclic(c) && ListsAncestors(c, t, s) && |s| <= LengthBound(c, width, t)
    ensures Load(c, width, s) < Weight(width, Rank(c, t))
  {
    forall a | a in s ensures Rank(c, a) < Rank(c, t) {
      AncestorRank(c, a, t);
    }
    LoadOfAncestors(c, width, t, s);
  }

  lemma MulMonotone(x: nat, y: nat, z: nat)
    requires x <= y
    ensures x * z <= y * z
  {
  }

  // ---------------------------------------------------------------- getParentTypes

  /** Entry `j` is a parent of `t` itself or of an entry listed before it. */
  ghost predicate Introduced(c: Catalog, t: TypeName, r: seq<TypeName>, j: nat)
    requires j < |r|
  {
    r[j] in Extends(c, t) || exists m :: 0 <= m < j && r[j] in Extends(c, r[m])
  }

  /** No entry comes before every type that leads to it. */
  ghost predicate ChildFirst(c: Catalog, t: TypeName, r: seq<TypeName>) {
    forall j :: 0 <= j < |r| ==> Introduced(c, t, r, j)
  }

  /** What callers rely on: the proper ancestors, each after some type that leads to it. */
  ghost predicate ListsAncestors(c: Catalog, t: TypeName, r: seq<TypeName>) {
    (forall a :: a in r <==> Ancestor(c, a, t)) && ChildFirst(c, t, r)
  }

  method GetParentTypes(c: Catalog, t: TypeName) returns (r: seq<TypeName>)
    requires Acyclic(c)
    ensures ListsAncestors(c, t, r)
  {
    ghost var width := WidthExists(c);
    r := CollectParentTypes(c, t, width);
  }

  /** What the loop of `getParentTypes` keeps after walking the first `i` entries of its growing list. */
  ghost predicate Walked(c: Catalog, t: TypeName, s: seq<TypeName>, i: nat) {
    && i <= |s| && Extends(c, t) <= s
    && (forall a :: a in s ==> Ancestor(c, a, t))
    && (forall j, a :: 0 <= j < i && Ancestor(c, a, s[j]) ==> a in s)
    && ChildFirst(c, t, s)
  }

  ghost predicate Affordable(c: Catalog, width: nat, t: TypeName, s: seq<TypeName>, i: nat) {
    i <= |s| && i + Load(c, width, s[i..]) <= LengthBound(c, width, t)
  }

  /** The recursion of `getParentTypes`; the loop appends to the list it walks. */
  method CollectParentTypes(c: Catalog, t: TypeName, ghost width: nat) returns (r: seq<TypeName>)
    requires Acyclic(c) && WidthBound(c, width)
    ensures ListsAncestors(c, t, r)
    ensures |r| <= LengthBound(c, width, t)
    decreases Rank(c, t)
  {
    var extendsArr := Extends(c, t);
    if |extendsArr| == 0 {
      NoParents(c, t);
      return [];
    }
    WalkStarts(c, width, t);
    r := extendsArr;
    var i := 0;
    while i < |r|
      invariant Walked(c, t, r, i) && Affordable(c, width, t, r, i)
      decreases Load(c, width, r[i..])
    {
      AncestorRank(c, r[i], t);
      var more := CollectParentTypes(c, r[i], width);
      WalkContinues(c, t, r, i, more);
      WalkPaysOff(c, width, t, r, i, more);
      r := r + more;
      i := i + 1;
    }
    WalkEnds(c, t, r);
  }

  lemma WalkStarts(c: Catalog, width: nat, t: TypeName)
    requires Acyclic(c) && WidthBound(c, width)
    ensures Walked(c, t, Extends(c, t), 0) && Affordable(c, width, t, Extends(c, t), 0)
  {
    var s := Extends(c, t);
    forall p | p in s ensures Ancestor(c, p, t) && Rank(c, p) < Rank(c, t) {
      ParentIsAncestor(c, p, t);
      RankDecreases(c, p, t);
    }
    LoadOfAncestors(c, width, t, s);
    assert s[0..] == s;
  }

  lemma WalkContinues(c: Catalog, t: TypeName, s: seq<TypeName>, i: nat, more: seq<TypeName>)
    requires Walked(c, t, s, i) && i < |s| && ListsAncestors(c, s[i], more)
    ensures Walked(c, t, s + more, i + 1)
  {
    forall a | a in more ensures Ancestor(c, a, t) {
      AncestorTransitive(c, a, s[i], t);
    }
    AppendKeepsChildFirst(c, t, s, i, more);
  }

  lemma WalkPaysOff(c: Catalog, width: nat, t: TypeName, s: seq<TypeName>, i: nat, more: seq<TypeName>)
    requires Acyclic(c) && i < |s| && Affordable(c, width, t, s, i)
    requires ListsAncestors(c, s[i], more) && |more| <= LengthBound(c, width, s[i])
    ensures Affordable(c, width, t, s + more, i + 1)
    ensures Load(c, width, (s + more)[i + 1..]) < Load(c, width, s[i..])
  {
    LoadOfParents(c, width, s[i], more);
    assert s[i..][1..] == s[i + 1..];
    assert (s + more)[i + 1..] == s[i + 1..] + more;
    LoadAppend(c, width, s[i + 1..], more);
  }

  lemma WalkEnds(c: Catalog, t: TypeName, s: seq<TypeName>)
    requires Walked(c, t, s, |s|)
    ensures ListsAncestors(c, t, s)
  {
    forall a | Ancestor(c, a, t) ensures a in s {
      var p := AncestorViaParent(c, a, t);
      assert p in s;
    }
  }

  lemma NoParents(c: Catalog, t: TypeName)
    requires Extends(c, t) == []
    ensures forall a :: !Ancestor(c, a, t)
  {
  }

  lemma AppendKeepsChildFirst(c: Catalog, t: TypeName, s: seq<TypeName>, i: nat, more: seq<TypeName>)
    requires i < |s| && ChildFirst(c, t, s) && ChildFirst(c, s[i], more)
    ensures ChildFirst(c, t, s + more)
  {
    var l := s + more;
    forall j | 0 <= j < |l| ensures Introduced(c, t, l, j) {
      if j < |s| {
        assert Introduced(c, t, s, j);
        if l[j] !in Extends(c, t) {
          var m :| 0 <= m < j && s[j] in Extends(c, s[m]);
          assert l[m] == s[m];
        }
      } else {
        var n := j - |s|;
        assert Introduced(c, s[i], more, n);
        if more[n] in Extends(c, s[i]) {
          assert l[i] == s[i];
        } else {
          var m :| 0 <= m < n && more[n] in Extends(c, more[m]);
          assert l[|s| + m] == more[m];
        }
      }
    }
  }

  // ---------------------------------------------------------------- order on chains

  /** On single-parent graphs the ancestors of a type form a chain. */
  lemma {:induction false} ChainComparable(c: Catalog, a: TypeName, b: TypeName, t: TypeName)
    requires Acyclic(c) && SingleParent(c) && Ancestor(c, a, t) && Ancestor(c, b, t)
    ensures a == b || Ancestor(c, a, b) || Ancestor(c, b, a)
    decreases Rank(c, t)
  {
    var p := AncestorViaParent(c, a, t);
    var q := AncestorViaParent(c, b, t);
    assert |Extends(c, t)| <= 1 && p == q;
    RankDecreases(c, p, t);
    if a != p && b != p {
      ChainComparable(c, a, b, p);
    }
  }

  /** With single parents nothing lies between a type and its parent. */
  lemma NothingBetween(c: Catalog, a: TypeName, child: TypeName, parent: TypeName)
    requires Acyclic(c) && SingleParent(c) && parent in Extends(c, child) && Ancestor(c, a, child)
    ensures !Ancestor(c, parent, a)
  {
    var p := AncestorViaParent(c, a, child);
    assert |Extends(c, child)| <= 1 && p == parent;
    if a != parent && Ancestor(c, parent, a) {
      AncestorTransitive(c, parent, a, parent);
    }
  }

  /**
   * Nearest first: wherever a type is listed, every type between it and `t`
   * has already been listed.
   */
  lemma {:induction false} NearestFirst(c: Catalog, t: TypeName, r: seq<TypeName>, a: TypeName, j: nat)
    requires Acyclic(c) && SingleParent(c) && ListsAncestors(c, t, r)
    requires j < |r| && Ancestor(c, a, t) && Ancestor(c, r[j], a)
    ensures a in r[..j]
    decreases j
  {
    assert Introduced(c, t, r, j);
    if r[j] in Extends(c, t) {
      NothingBetween(c, a, t, r[j]);
    } else {
      var m :| 0 <= m < j && r[j] in Extends(c, r[m]);
      ChainComparable(c, a, r[m], t);
      if Ancestor(c, r[m], a) {
        NearestFirst(c, t, r, a, m);
        assert r[..m] <= r[..j];
      } else if a != r[m] {
        NothingBetween(c, a, r[m], r[j]);
      }
    }
  }
}
