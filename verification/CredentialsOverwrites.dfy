/**
 * Credential overwrites: flattening them along the inheritance graph, reading them back,
 * and applying them to stored credential data.
 */
module CredentialsOverwrites {
  import opened Wrappers
  import opened CredentialTypes

  type FieldName = string
  datatype Value = Null | Undefined | Text(text: string) | Number(number: int) | Flag(flag: bool)
  type Fields = map<FieldName, Value>
  type OverwriteMap = map<TypeName, Fields>

  function Lookup(data: OverwriteMap, t: TypeName): Option<Fields> {
    if t in data then Some(data[t]) else None
  }

  function FieldsOf(o: Option<Fields>): Fields {
    o.GetOr(map[])
  }

  predicate Sets(data: OverwriteMap, t: TypeName, k: FieldName) {
    t in data && k in data[t]
  }

  // ---------------------------------------------------------------- the reference definition

  /** The line ends at a type that gives `k` the value `v`, and no earlier type on it sets `k`. */
  ghost predicate IsNearestLine(c: Catalog, data: OverwriteMap, p: seq<TypeName>, t: TypeName, k: FieldName, v: Value) {
    && IsLine(c, p) && p[0] == t
    && Sets(data, p[|p| - 1], k) && data[p[|p| - 1]][k] == v
    && forall i :: 0 <= i < |p| - 1 ==> !Sets(data, p[i], k)
  }

  /** `v` is the value a nearest setter of `k` above (or at) `t` gives it. */
  ghost predicate Nearest(c: Catalog, data: OverwriteMap, t: TypeName, k: FieldName, v: Value) {
    exists p :: IsNearestLine(c, data, p, t, k, v)
  }

  lemma NearestOwn(c: Catalog, data: OverwriteMap, t: TypeName, k: FieldName)
    requires Sets(data, t, k)
    ensures forall v :: Nearest(c, data, t, k, v) <==> v == data[t][k]
  {
    assert IsNearestLine(c, data, [t], t, k, data[t][k]);
    forall v | Nearest(c, data, t, k, v) ensures v == data[t][k] {
      var p :| IsNearestLine(c, data, p, t, k, v);
    }
  }

  /** Lengthening a line from below by types that leave `k` alone keeps its nearest setter. */
  lemma NearestJoin(c: Catalog, data: OverwriteMap, l: seq<TypeName>, t: TypeName, s: TypeName, k: FieldName, v: Value)
    requires IsLineFrom(c, l, t, s) && Nearest(c, data, s, k, v)
    requires forall i :: 0 <= i < |l| - 1 ==> !Sets(data, l[i], k)
    ensures Nearest(c, data, t, k, v)
  {
    var q :| IsNearestLine(c, data, q, s, k, v);
    JoinLines(c, l, q);
    var p := l[..|l| - 1] + q;
    forall i | 0 <= i < |p| - 1 ensures !Sets(data, p[i], k) {
      if i >= |l| - 1 { assert p[i] == q[i - (|l| - 1)]; }
    }
    assert IsNearestLine(c, data, p, t, k, v);
  }

  lemma NearestUp(c: Catalog, data: OverwriteMap, t: TypeName, p: TypeName, k: FieldName, v: Value)
    requires p in Extends(c, t) && !Sets(data, t, k) && Nearest(c, data, p, k, v)
    ensures Nearest(c, data, t, k, v)
  {
    assert IsLineFrom(c, [t, p], t, p);
    NearestJoin(c, data, [t, p], t, p, k, v);
  }

  /** With single parents there is at most one line up, hence one nearest value. */
  lemma {:induction false} NearestUnique(c: Catalog, data: OverwriteMap, t: TypeName, k: FieldName, v: Value, w: Value)
    requires Acyclic(c) && SingleParent(c)
    requires Nearest(c, data, t, k, v) && Nearest(c, data, t, k, w)
    ensures v == w
    decreases Rank(c, t)
  {
    if Sets(data, t, k) {
      NearestOwn(c, data, t, k);
    } else {
      var p :| IsNearestLine(c, data, p, t, k, v);
      var q :| IsNearestLine(c, data, q, t, k, w);
      assert p[1] in Extends(c, t) && q[1] in Extends(c, t) && |Extends(c, t)| <= 1;
      assert IsNearestLine(c, data, p[1..], p[1], k, v);
      assert IsNearestLine(c, data, q[1..], p[1], k, w);
      RankDecreases(c, p[1], t);
      NearestUnique(c, data, p[1], k, v, w);
    }
  }

  // ---------------------------------------------------------------- getOverwrites and setPlainData

  datatype Resolution = Resolution(found: Option<Fields>, resolvedTypes: seq<TypeName>)

  /** `getOverwrites` as a function of the stored data and the cache of resolved types. */
  ghost function Overwrites(c: Catalog, data: OverwriteMap, resolvedTypes: seq<TypeName>, t: TypeName): Resolution
    requires Acyclic(c)
    decreases Rank(c, t), 1, 0
  {
    if t in resolvedTypes then Resolution(Lookup(data, t), resolvedTypes)
    else if t !in c then Resolution(None, resolvedTypes)
    else if c[t].None? then Resolution(Lookup(data, t), resolvedTypes + [t])
    else
      var merged := MergeParents(c, data, resolvedTypes, t, |Extends(c, t)|);
      Resolution(Some(FieldsOf(merged.found) + FieldsOf(Lookup(data, t))), merged.resolvedTypes + [t])
  }

  /** The loop over the first `n` parents of `t`; a later parent overwrites an earlier one. */
  ghost function MergeParents(c: Catalog, data: OverwriteMap, resolvedTypes: seq<TypeName>, t: TypeName, n: nat): Resolution
    requires Acyclic(c) && n <= |Extends(c, t)|
    decreases Rank(c, t), 0, n
  {
    if n == 0 then Resolution(Some(map[]), resolvedTypes)
    else
      var p := Extends(c, t)[n - 1];
      var before := MergeParents(c, data, resolvedTypes, t, n - 1);
      RankDecreases(c, p, t);
      var here := Overwrites(c, data, before.resolvedTypes, p);
      Resolution(Some(FieldsOf(before.found) + FieldsOf(here.found)), here.resolvedTypes)
  }

  datatype Store = Store(data: OverwriteMap, resolvedTypes: seq<TypeName>)

  /** `setPlainData` after its loop has visited `keys`. */
  ghost function Flatten(c: Catalog, raw: OverwriteMap, keys: seq<TypeName>): Store
    requires Acyclic(c)
  {
    if keys == [] then Store(raw, []) else Visit(c, Flatten(c, raw, keys[..|keys| - 1]), keys[|keys| - 1])
  }

  lemma FlattenNext(c: Catalog, raw: OverwriteMap, keys: seq<TypeName>, i: nat)
    requires Acyclic(c) && i < |keys|
    ensures Flatten(c, raw, keys[..i + 1]) == Visit(c, Flatten(c, raw, keys[..i]), keys[i])
  {
    assert keys[..i + 1][..i] == keys[..i];
  }

  /** One iteration: a type that resolves to some fields has its entry replaced by them. */
  ghost function Visit(c: Catalog, s: Store, t: TypeName): Store
    requires Acyclic(c)
  {
    var o := Overwrites(c, s.data, s.resolvedTypes, t);
    Store(if FieldsOf(o.found) != map[] then s.data[t := o.found.value] else s.data, o.resolvedTypes)
  }

  /** An enumeration of the keys of an object, in any order. */
  ghost predicate Enumerates(keys: seq<TypeName>, data: OverwriteMap) {
    (forall t :: t in keys <==> t in data) && forall i, j :: 0 <= i < j < |keys| ==> keys[i] != keys[j]
  }

  // ---------------------------------------------------------------- what flattening keeps

  /**
   * Whether raw, fully merged or partly merged, a stored entry keeps its own raw keys and
   * every key it holds has the value of a nearest setter in the raw overwrites.
   */
  ghost predicate Sound(c: Catalog, raw: OverwriteMap, data: OverwriteMap) {
    data.Keys == raw.Keys && forall t {:trigger SoundEntry(c, raw, data, t)} :: t in raw ==> SoundEntry(c, raw, data, t)
  }

  ghost predicate SoundEntry(c: Catalog, raw: OverwriteMap, data: OverwriteMap, t: TypeName)
    requires t in raw && t in data
  {
    raw[t].Keys <= data[t].Keys && SoundFields(c, raw, t, data[t])
  }

  ghost predicate SoundFields(c: Catalog, raw: OverwriteMap, t: TypeName, f: Fields) {
    forall k :: k in f ==> Nearest(c, raw, t, k, f[k])
  }

  lemma SoundRaw(c: Catalog, raw: OverwriteMap)
    ensures Sound(c, raw, raw)
  {
    forall t | t in raw ensures SoundEntry(c, raw, raw, t) {
      forall k | k in raw[t] ensures Nearest(c, raw, t, k, raw[t][k]) {
        NearestOwn(c, raw, t, k);
      }
    }
  }

  lemma SoundSets(c: Catalog, raw: OverwriteMap, data: OverwriteMap, t: TypeName, k: FieldName)
    requires Sound(c, raw, data)
    ensures Sets(raw, t, k) ==> Sets(data, t, k)
    ensures Sets(data, t, k) ==> Nearest(c, raw, t, k, data[t][k])
  {
    if t in raw { assert SoundEntry(c, raw, data, t); }
  }

  lemma {:induction false} OverwritesSound(c: Catalog, raw: OverwriteMap, data: OverwriteMap, resolvedTypes: seq<TypeName>, t: TypeName)
    requires Acyclic(c) && Sound(c, raw, data)
    ensures var o := Overwrites(c, data, resolvedTypes, t).found;
      o.Some? ==> SoundFields(c, raw, t, o.value) && FieldsOf(Lookup(raw, t)).Keys <= o.value.Keys
    decreases Rank(c, t), 1, 0
  {
    if t in raw { assert SoundEntry(c, raw, data, t); }
    if t !in resolvedTypes && t in c && c[t].Some? {
      var merged := FieldsOf(MergeParents(c, data, resolvedTypes, t, |Extends(c, t)|).found);
      MergeSound(c, raw, data, resolvedTypes, t, |Extends(c, t)|);
      var f := merged + FieldsOf(Lookup(data, t));
      forall k | k in f ensures Nearest(c, raw, t, k, f[k]) {
        SoundSets(c, raw, data, t, k);
      }
    }
  }

  lemma {:induction false} MergeSound(c: Catalog, raw: OverwriteMap, data: OverwriteMap, resolvedTypes: seq<TypeName>, t: TypeName, n: nat)
    requires Acyclic(c) && Sound(c, raw, data) && n <= |Extends(c, t)|
    ensures var f := FieldsOf(MergeParents(c, data, resolvedTypes, t, n).found);
      forall k :: k in f && !Sets(raw, t, k) ==> Nearest(c, raw, t, k, f[k])
    decreases Rank(c, t), 0, n
  {
    if n > 0 {
      var p := Extends(c, t)[n - 1];
      var before := MergeParents(c, data, resolvedTypes, t, n - 1);
      RankDecreases(c, p, t);
      MergeSound(c, raw, data, resolvedTypes, t, n - 1);
      OverwritesSound(c, raw, data, before.resolvedTypes, p);
      LayeredSound(c, raw, t, p, FieldsOf(before.found), FieldsOf(Overwrites(c, data, before.resolvedTypes, p).found));
    }
  }

  lemma LayeredSound(c: Catalog, raw: OverwriteMap, t: TypeName, p: TypeName, below: Fields, above: Fields)
    requires p in Extends(c, t) && SoundFields(c, raw, p, above)
    requires forall k :: k in below && !Sets(raw, t, k) ==> Nearest(c, raw, t, k, below[k])
    ensures forall k :: k in below + above && !Sets(raw, t, k) ==> Nearest(c, raw, t, k, (below + above)[k])
  {
    forall k | k in below + above && !Sets(raw, t, k) ensures Nearest(c, raw, t, k, (below + above)[k]) {
      if k in above { NearestUp(c, raw, t, p, k, above[k]); }
    }
  }

  lemma ReplaceSound(c: Catalog, raw: OverwriteMap, data: OverwriteMap, t: TypeName, f: Fields)
    requires Sound(c, raw, data) && t in raw && SoundFields(c, raw, t, f) && raw[t].Keys <= f.Keys
    ensures Sound(c, raw, data[t := f])
  {
    forall u | u in raw ensures SoundEntry(c, raw, data[t := f], u) {
      assert SoundEntry(c, raw, data, u);
    }
  }

  lemma {:induction false} FlattenSound(c: Catalog, raw: OverwriteMap, keys: seq<TypeName>)
    requires Acyclic(c) && forall t :: t in keys ==> t in raw
    ensures Sound(c, raw, Flatten(c, raw, keys).data)
  {
    if keys == [] {
      SoundRaw(c, raw);
    } else {
      var t := keys[|keys| - 1];
      var s := Flatten(c, raw, keys[..|keys| - 1]);
      FlattenSound(c, raw, keys[..|keys| - 1]);
      OverwritesSound(c, raw, s.data, s.resolvedTypes, t);
      assert t in keys;
      var o := Overwrites(c, s.data, s.resolvedTypes, t).found;
      if o.Some? { ReplaceSound(c, raw, s.data, t, o.value); }
    }
  }

  // ---------------------------------------------------------------- what the cache costs

  ghost predicate Untouched(c: Catalog, resolvedTypes: seq<TypeName>, t: TypeName) {
    forall u :: u == t || Ancestor(c, u, t) ==> u in c && u !in resolvedTypes
  }

  /** Resolving a type without own fields under `k` merges in what its only parent resolves to. */
  lemma OneParentMerges(c: Catalog, data: OverwriteMap, resolvedTypes: seq<TypeName>, t: TypeName, k: FieldName)
    requires Acyclic(c) && t in c && t !in resolvedTypes && |Extends(c, t)| == 1 && !Sets(data, t, k)
    ensures var f := FieldsOf(Overwrites(c, data, resolvedTypes, t).found);
            var above := FieldsOf(Overwrites(c, data, resolvedTypes, Extends(c, t)[0]).found);
            (k in f <==> k in above) && (k in f ==> f[k] == above[k])
  {
    assert MergeParents(c, data, resolvedTypes, t, 0) == Resolution(Some(map[]), resolvedTypes);
  }

  lemma NearestAbove(c: Catalog, data: OverwriteMap, t: TypeName, k: FieldName, v: Value)
    requires SingleParent(c) && !Sets(data, t, k) && Nearest(c, data, t, k, v)
    ensures |Extends(c, t)| == 1 && Nearest(c, data, Extends(c, t)[0], k, v)
  {
    var l :| IsNearestLine(c, data, l, t, k, v);
    assert l[1] in Extends(c, t) && |Extends(c, t)| <= 1;
    assert IsNearestLine(c, data, l[1..], l[1], k, v);
  }

  lemma UntouchedAbove(c: Catalog, resolvedTypes: seq<TypeName>, t: TypeName, p: TypeName)
    requires Untouched(c, resolvedTypes, t) && p in Extends(c, t)
    ensures Untouched(c, resolvedTypes, p)
  {
    ParentIsAncestor(c, p, t);
    forall u | u == p || Ancestor(c, u, p) ensures u in c && u !in resolvedTypes {
      if u != p { AncestorTransitive(c, u, p, t); }
    }
  }

  /** The first time a chain of known types is resolved, the result is fully merged. */
  lemma {:induction false} FirstResolutionComplete(c: Catalog, data: OverwriteMap, resolvedTypes: seq<TypeName>, t: TypeName, k: FieldName, v: Value)
    requires Acyclic(c) && SingleParent(c) && Untouched(c, resolvedTypes, t)
    requires Nearest(c, data, t, k, v)
    ensures var f := FieldsOf(Overwrites(c, data, resolvedTypes, t).found); k in f && f[k] == v
    decreases Rank(c, t)
  {
    if Sets(data, t, k) {
      NearestOwn(c, data, t, k);
    } else {
      NearestAbove(c, data, t, k, v);
      var p := Extends(c, t)[0];
      RankDecreases(c, p, t);
      UntouchedAbove(c, resolvedTypes, t, p);
      FirstResolutionComplete(c, data, resolvedTypes, p, k, v);
      OneParentMerges(c, data, resolvedTypes, t, k);
    }
  }

  // ---------------------------------------------------------------- get

  /** The fields of the listed types laid over each other, an earlier name winning. */
  function Overlay(data: OverwriteMap, names: seq<TypeName>): Fields {
    if names == [] then map[] else Overlay(data, names[1..]) + FieldsOf(Lookup(data, names[0]))
  }

  /** `get`: undefined when no listed type has an entry. */
  function Gathered(data: OverwriteMap, names: seq<TypeName>): Option<Fields> {
    if exists t :: t in names && t in data then Some(Overlay(data, names)) else None
  }

  lemma {:induction false} OverlayFirst(data: OverwriteMap, names: seq<TypeName>, k: FieldName) returns (j: nat)
    requires k in Overlay(data, names)
    ensures j < |names| && Sets(data, names[j], k) && Overlay(data, names)[k] == data[names[j]][k]
    ensures forall i :: 0 <= i < j ==> !Sets(data, names[i], k)
  {
    if Sets(data, names[0], k) {
      j := 0;
    } else {
      var i := OverlayFirst(data, names[1..], k);
      j := i + 1;
    }
  }

  lemma {:induction false} OverlayComplete(data: OverwriteMap, names: seq<TypeName>, t: TypeName, k: FieldName)
    requires t in names && Sets(data, t, k)
    ensures k in Overlay(data, names)
  {
    if t != names[0] { OverlayComplete(data, names[1..], t, k); }
  }

  /** Some line leads from `names[0]` to `names[j]` through types listed before `j` only. */
  lemma {:induction false} EarlierLine(c: Catalog, names: seq<TypeName>, j: nat) returns (l: seq<TypeName>)
    requires |names| >= 1 && ChildFirst(c, names[0], names[1..]) && j < |names|
    ensures IsLineFrom(c, l, names[0], names[j])
    ensures forall i :: 0 <= i < |l| - 1 ==> l[i] in names[..j]
    decreases j
  {
    if j == 0 {
      l := [names[0]];
    } else {
      var rest := names[1..];
      assert Introduced(c, names[0], rest, j - 1);
      var m: nat;
      if rest[j - 1] in Extends(c, names[0]) {
        m := 0;
      } else {
        var n :| 0 <= n < j - 1 && rest[j - 1] in Extends(c, rest[n]);
        m := n + 1;
      }
      assert names[j] in Extends(c, names[m]);
      var front := EarlierLine(c, names, m);
      JoinLines(c, front, [names[m], names[j]]);
      l := front[..|front| - 1] + [names[m], names[j]];
      assert names[..m] <= names[..j] && names[m] in names[..j];
    }
  }

  /** `name` or an ancestor of it has a raw overwrite. */
  ghost predicate Overwritten(c: Catalog, raw: OverwriteMap, name: TypeName) {
    name in raw || exists a :: a in raw && Ancestor(c, a, name)
  }

  /**
   * What a caller of `get` may expect on any acyclic graph: every field comes from a nearest
   * setter in the raw overwrites, no field is lost, and the answer is undefined exactly
   * when neither the type nor any ancestor has an overwrite.
   */
  ghost predicate Answers(c: Catalog, raw: OverwriteMap, name: TypeName, o: Option<Fields>) {
    && (o.Some? <==> Overwritten(c, raw, name))
    && SoundFields(c, raw, name, FieldsOf(o))
    && (forall k, v :: Nearest(c, raw, name, k, v) ==> k in FieldsOf(o))
  }

  lemma GatheredAnswers(c: Catalog, raw: OverwriteMap, data: OverwriteMap, name: TypeName, parents: seq<TypeName>)
    requires Sound(c, raw, data) && ListsAncestors(c, name, parents)
    ensures Answers(c, raw, name, Gathered(data, [name] + parents))
  {
    var names := [name] + parents;
    var o := Gathered(data, names);
    assert names[1..] == parents;
    forall k | k in FieldsOf(o) ensures Nearest(c, raw, name, k, FieldsOf(o)[k]) {
      var j := OverlayFirst(data, names, k);
      var l := EarlierLine(c, names, j);
      SoundSets(c, raw, data, names[j], k);
      forall i | 0 <= i < |l| - 1 ensures !Sets(raw, l[i], k) {
        assert l[i] in names[..j];
        SoundSets(c, raw, data, l[i], k);
      }
      NearestJoin(c, raw, l, name, names[j], k, FieldsOf(o)[k]);
    }
    forall k, v | Nearest(c, raw, name, k, v) ensures k in FieldsOf(o) {
      var p :| IsNearestLine(c, raw, p, name, k, v);
      var s := p[|p| - 1];
      if |p| >= 2 { assert IsLineFrom(c, p, name, s); assert Ancestor(c, s, name); }
      SoundSets(c, raw, data, s, k);
      OverlayComplete(data, names, s, k);
    }
    if name in raw { assert name in names; }
    if a :| a in raw && Ancestor(c, a, name) { assert a in parents && a in names; }
  }

  /** The agreement theorem: whatever the key order, `get` on flattened data answers from the raw overwrites. */
  lemma FlattenedAnswers(c: Catalog, raw: OverwriteMap, keys: seq<TypeName>, name: TypeName, parents: seq<TypeName>)
    requires Acyclic(c) && ListsAncestors(c, name, parents) && Enumerates(keys, raw)
    ensures Answers(c, raw, name, Gathered(Flatten(c, raw, keys).data, [name] + parents))
  {
    FlattenSound(c, raw, keys);
    GatheredAnswers(c, raw, Flatten(c, raw, keys).data, name, parents);
  }

  /** No field has two different nearest values, as happens when two parents disagree. */
  ghost predicate Unambiguous(c: Catalog, raw: OverwriteMap, name: TypeName) {
    forall k, v, w :: Nearest(c, raw, name, k, v) && Nearest(c, raw, name, k, w) ==> v == w
  }

  lemma SingleParentUnambiguous(c: Catalog, raw: OverwriteMap, name: TypeName)
    requires Acyclic(c) && SingleParent(c)
    ensures Unambiguous(c, raw, name)
  {
    forall k, v, w | Nearest(c, raw, name, k, v) && Nearest(c, raw, name, k, w) ensures v == w {
      NearestUnique(c, raw, name, k, v, w);
    }
  }

  /** Without ambiguity there is only one answer, so the key order cannot matter. */
  lemma AnswerUnique(c: Catalog, raw: OverwriteMap, name: TypeName, o: Option<Fields>, u: Option<Fields>)
    requires Unambiguous(c, raw, name) && Answers(c, raw, name, o) && Answers(c, raw, name, u)
    ensures o == u
    ensures forall k, v :: (k in FieldsOf(o) && FieldsOf(o)[k] == v) <==> Nearest(c, raw, name, k, v)
  {
    var f, g := FieldsOf(o), FieldsOf(u);
    forall k, v | Nearest(c, raw, name, k, v)
      ensures k in f && k in g && f[k] == v && g[k] == v
    {
      assert Nearest(c, raw, name, k, f[k]) && Nearest(c, raw, name, k, g[k]);
    }
    assert f == g by {
      forall k ensures k in f <==> k in g {
        if k in f { assert Nearest(c, raw, name, k, f[k]); }
        if k in g { assert Nearest(c, raw, name, k, g[k]); }
      }
      forall k | k in f && k in g ensures f[k] == g[k] { assert Nearest(c, raw, name, k, f[k]); }
    }
  }

  // ---------------------------------------------------------------- reloading flattened data

  /** Taking already flattened data as the raw overwrites changes no nearest value. */
  lemma FlattenPreservesNearest(c: Catalog, raw: OverwriteMap, data: OverwriteMap, t: TypeName, k: FieldName, v: Value)
    requires Acyclic(c) && SingleParent(c) && Sound(c, raw, data)
    ensures Nearest(c, data, t, k, v) <==> Nearest(c, raw, t, k, v)
  {
    if Nearest(c, data, t, k, v) {
      var p :| IsNearestLine(c, data, p, t, k, v);
      forall i | 0 <= i < |p| - 1 ensures !Sets(raw, p[i], k) { SoundSets(c, raw, data, p[i], k); }
      SoundSets(c, raw, data, p[|p| - 1], k);
      NearestJoin(c, raw, p, t, p[|p| - 1], k, v);
    }
    if Nearest(c, raw, t, k, v) {
      var p :| IsNearestLine(c, raw, p, t, k, v);
      SoundSets(c, raw, data, p[|p| - 1], k);
      var i := FirstSetter(data, p, k);
      SoundSets(c, raw, data, p[i], k);
      assert IsNearestLine(c, raw, p[i..], p[i], k, v);
      NearestUnique(c, raw, p[i], k, v, data[p[i]][k]);
      assert IsNearestLine(c, data, p[..i + 1], t, k, v);
    }
  }

  lemma FirstSetter(data: OverwriteMap, p: seq<TypeName>, k: FieldName) returns (i: nat)
    requires |p| >= 1 && Sets(data, p[|p| - 1], k)
    ensures i < |p| && Sets(data, p[i], k) && forall j :: 0 <= j < i ==> !Sets(data, p[j], k)
  {
    i := 0;
    while !Sets(data, p[i], k)
      invariant i < |p| && forall j :: 0 <= j < i ==> !Sets(data, p[j], k)
      decreases |p| - i
    {
      i := i + 1;
    }
  }

  /** The data after a series of reloads, each of which flattens what the one before persisted. */
  ghost function Reloaded(c: Catalog, raw: OverwriteMap, orders: seq<seq<TypeName>>): OverwriteMap
    requires Acyclic(c)
  {
    if orders == [] then raw
    else Flatten(c, Reloaded(c, raw, orders[..|orders| - 1]), orders[|orders| - 1]).data
  }

  /**
   * However often flattened data is persisted and loaded again, and in whatever key order each
   * time, every instance that has loaded it at least once resolves the raw nearest values.
   */
  lemma {:induction false} ReloadStable(c: Catalog, raw: OverwriteMap, orders: seq<seq<TypeName>>, t: TypeName, k: FieldName, v: Value)
    requires Acyclic(c) && SingleParent(c)
    requires forall o :: o in orders ==> Enumerates(o, raw)
    ensures Reloaded(c, raw, orders).Keys == raw.Keys
    ensures Nearest(c, Reloaded(c, raw, orders), t, k, v) <==> Nearest(c, raw, t, k, v)
  {
    if orders != [] {
      var before := Reloaded(c, raw, orders[..|orders| - 1]);
      var keys := orders[|orders| - 1];
      ReloadStable(c, raw, orders[..|orders| - 1], t, k, v);
      assert Enumerates(keys, raw);
      FlattenSound(c, before, keys);
      FlattenPreservesNearest(c, before, Flatten(c, before, keys).data, t, k, v);
    }
  }

  /** What `get` answers does not change from the first load to any later reload. */
  lemma GetStableUnderReload(c: Catalog, raw: OverwriteMap, orders: seq<seq<TypeName>>, name: TypeName, parents: seq<TypeName>)
    requires Acyclic(c) && SingleParent(c) && ListsAncestors(c, name, parents)
    requires orders != [] && forall o :: o in orders ==> Enumerates(o, raw)
    ensures Gathered(Reloaded(c, raw, orders), [name] + parents)
         == Gathered(Flatten(c, raw, orders[0]).data, [name] + parents)
  {
    var last := |orders| - 1;
    var before := Reloaded(c, raw, orders[..last]);
    assert Enumerates(orders[0], raw) && Enumerates(orders[last], raw);
    forall o | o in orders[..last] ensures Enumerates(o, raw) { assert o in orders; }
    forall k, v ensures Nearest(c, before, name, k, v) <==> Nearest(c, raw, name, k, v) {
      ReloadStable(c, raw, orders[..last], name, k, v);
    }
    ReloadStable(c, raw, orders[..last], name, "", Null);
    FlattenedAnswers(c, before, orders[last], name, parents);
    FlattenedAnswers(c, raw, orders[0], name, parents);
    var o := Gathered(Flatten(c, before, orders[last]).data, [name] + parents);
    assert Answers(c, raw, name, o);
    SingleParentUnambiguous(c, raw, name);
    AnswerUnique(c, raw, name, o, Gathered(Flatten(c, raw, orders[0]).data, [name] + parents));
  }

  // ---------------------------------------------------------------- applyOverwrite

  predicate IsEmpty(data: Fields, k: FieldName) {
    k !in data || data[k] in {Null, Undefined, Text("")}
  }

  /** A skip-list credential the user has filled in with something other than the overwrite. */
  predicate IsCustomized(data: Fields, overwrites: Fields) {
    exists k :: k in overwrites && !IsEmpty(data, k) && data[k] != overwrites[k]
  }

  /**
   * `r` is `data` with the overwrites applied, field by field: for a skip-list type not at all if a field holds
   * something other than its overwrite, and otherwise exactly to the fields that are absent, null or "".
   */
  ghost predicate AppliedFields(overwrites: Option<Fields>, skip: bool, data: Fields, r: Fields) {
    match overwrites
    case None => r == data
    case Some(o) =>
      if skip && exists k :: k in o && k in data && data[k] !in {Null, Undefined, Text(""), o[k]} then r == data
      else
        && (forall k :: k in r <==> k in data || k in o)
        && (forall k :: k in o && (k !in data || data[k] in {Null, Undefined, Text("")}) ==> r[k] == o[k])
        && (forall k :: k in data && (k !in o || data[k] !in {Null, Undefined, Text("")}) ==> r[k] == data[k])
  }

  /**
   * Nothing the user has set is ever changed and no field outside the overwrites is touched;
   * an empty field is filled; for skip-list types it is the data as it was or every overwrite.
   */
  function Applied(overwrites: Option<Fields>, skip: bool, data: Fields): (r: Fields)
    ensures forall k :: !IsEmpty(data, k) || k !in FieldsOf(overwrites) ==>
      (k in r <==> k in data) && (k in data ==> r[k] == data[k])
    ensures !skip ==> forall k :: k in FieldsOf(overwrites) && IsEmpty(data, k) ==> k in r && r[k] == FieldsOf(overwrites)[k]
    ensures skip ==> r == data || forall k :: k in FieldsOf(overwrites) ==> k in r && r[k] == FieldsOf(overwrites)[k]
    ensures skip && IsCustomized(data, FieldsOf(overwrites)) ==> r == data
    ensures skip && !IsCustomized(data, FieldsOf(overwrites)) ==>
      forall k :: k in FieldsOf(overwrites) ==> k in r && r[k] == FieldsOf(overwrites)[k]
    ensures AppliedFields(overwrites, skip, data, r)
  {
    match overwrites
    case None => data
    case Some(o) =>
      if skip && IsCustomized(data, o) then data
      else data + map k | k in o && IsEmpty(data, k) :: o[k]
  }

  /** `r` is `data` with an answer of `get` applied to it. */
  ghost predicate AppliesAnswer(c: Catalog, raw: OverwriteMap, t: TypeName, skip: bool, data: Fields, r: Fields) {
    exists o :: Answers(c, raw, t, o) && AppliedFields(o, skip, data, r)
  }

  /** The fields fix the result: there is one way to apply the overwrites. */
  lemma AppliedFieldsUnique(overwrites: Option<Fields>, skip: bool, data: Fields, r: Fields)
    requires AppliedFields(overwrites, skip, data, r)
    ensures r == Applied(overwrites, skip, data)
  {
    assert AppliedFields(overwrites, skip, data, Applied(overwrites, skip, data));
  }

  lemma AppliedIdempotent(overwrites: Option<Fields>, skip: bool, data: Fields)
    ensures Applied(overwrites, skip, Applied(overwrites, skip, data)) == Applied(overwrites, skip, data)
  {
  }

  // ---------------------------------------------------------------- the service

  /** The object the caller hands over; the service keeps a reference to it. */
  class OverwriteData {
    var entries: OverwriteMap

    constructor (entries: OverwriteMap)
      ensures this.entries == entries
    {
      this.entries := entries;
    }
  }

  class CredentialsOverwrites {
    const credentialTypes: Catalog
    const skipTypes: set<TypeName>
    var overwriteData: OverwriteData
    var resolvedTypes: seq<TypeName>

    constructor (credentialTypes: Catalog, skipTypes: set<TypeName>)
      ensures this.credentialTypes == credentialTypes && this.skipTypes == skipTypes
      ensures fresh(overwriteData) && overwriteData.entries == map[] && resolvedTypes == []
    {
      this.credentialTypes, this.skipTypes := credentialTypes, skipTypes;
      overwriteData := new OverwriteData(map[]);
      resolvedTypes := [];
    }

    method GetOverwrites(t: TypeName) returns (overwrites: Option<Fields>)
      requires Acyclic(credentialTypes)
      modifies this`resolvedTypes
      ensures Resolution(overwrites, resolvedTypes)
           == Overwrites(credentialTypes, overwriteData.entries, old(resolvedTypes), t)
      ensures t in old(resolvedTypes) || t !in credentialTypes ==> resolvedTypes == old(resolvedTypes)
      ensures old(resolvedTypes) <= resolvedTypes
      ensures t !in old(resolvedTypes) && t in credentialTypes ==>
              |resolvedTypes| > |old(resolvedTypes)| && resolvedTypes[|resolvedTypes| - 1] == t
      ensures t in old(resolvedTypes) || (t in credentialTypes && credentialTypes[t].None?) ==>
              overwrites == if t in overwriteData.entries then Some(overwriteData.entries[t]) else None
      ensures t !in old(resolvedTypes) && t !in credentialTypes ==> overwrites == None
      ensures t !in old(resolvedTypes) && t in credentialTypes && credentialTypes[t].Some? ==>
              overwrites.Some?
              && (t in overwriteData.entries ==>
                  forall k :: k in overwriteData.entries[t] ==>
                    k in overwrites.value && overwrites.value[k] == overwriteData.entries[t][k])
      decreases Rank(credentialTypes, t)
    {
      if t in resolvedTypes {
        return Lookup(overwriteData.entries, t);
      }
      if t !in credentialTypes {
        return None;
      }
      if credentialTypes[t].None? {
        resolvedTypes := resolvedTypes + [t];
        return Lookup(overwriteData.entries, t);
      }
      var parents := credentialTypes[t].value;
      var merged: Fields := map[];
      for i := 0 to |parents|
        invariant Resolution(Some(merged), resolvedTypes)
               == MergeParents(credentialTypes, overwriteData.entries, old(resolvedTypes), t, i)
        invariant old(resolvedTypes) <= resolvedTypes
      {
        RankDecreases(credentialTypes, parents[i], t);
        var inherited := GetOverwrites(parents[i]);
        merged := merged + FieldsOf(inherited);
      }
      merged := merged + FieldsOf(Lookup(overwriteData.entries, t));
      resolvedTypes := resolvedTypes + [t];
      return Some(merged);
    }

    /** Flattens in place: the caller's object ends up holding the flattened entries. */
    method SetPlainData(data: OverwriteData, keys: seq<TypeName>)
      requires Acyclic(credentialTypes) && Enumerates(keys, data.entries)
      modifies this, data
      ensures overwriteData == data
      ensures Store(data.entries, resolvedTypes) == Flatten(credentialTypes, old(data.entries), keys)
      ensures Sound(credentialTypes, old(data.entries), data.entries)
    {
      resolvedTypes := [];
      overwriteData := data;
      for i := 0 to |keys|
        invariant overwriteData == data
        invariant Store(data.entries, resolvedTypes) == Flatten(credentialTypes, old(data.entries), keys[..i])
      {
        FlattenNext(credentialTypes, old(data.entries), keys, i);
        ghost var before := Store(data.entries, resolvedTypes);
        var overwrites := GetOverwrites(keys[i]);
        if overwrites.Some? && overwrites.value != map[] {
          overwriteData.entries := overwriteData.entries[keys[i] := overwrites.value];
        }
        assert Store(data.entries, resolvedTypes) == Visit(credentialTypes, before, keys[i]);
      }
      assert keys[..|keys|] == keys;
      FlattenSound(credentialTypes, old(data.entries), keys);
    }

    /** What gets persisted is the caller's object after flattening, not the raw input. */
    method SetData(data: OverwriteData, keys: seq<TypeName>, storeInDb: bool) returns (persisted: Option<OverwriteMap>)
      requires Acyclic(credentialTypes) && Enumerates(keys, data.entries)
      modifies this, data
      ensures overwriteData == data
      ensures Store(data.entries, resolvedTypes) == Flatten(credentialTypes, old(data.entries), keys)
      ensures Sound(credentialTypes, old(data.entries), data.entries)
      ensures persisted == if storeInDb then Some(overwriteData.entries) else None
    {
      SetPlainData(data, keys);
      persisted := if storeInDb then Some(data.entries) else None;
    }

    /** Whatever raw overwrites the stored entries soundly reflect, the answer is drawn from them. */
    method Get(name: TypeName) returns (o: Option<Fields>)
      requires Acyclic(credentialTypes)
      ensures forall raw :: Sound(credentialTypes, raw, overwriteData.entries) ==> Answers(credentialTypes, raw, name, o)
    {
      var parentTypes := GetParentTypes(credentialTypes, name);
      o := Gathered(overwriteData.entries, [name] + parentTypes);
      forall raw | Sound(credentialTypes, raw, overwriteData.entries)
        ensures Answers(credentialTypes, raw, name, o)
      {
        GatheredAnswers(credentialTypes, raw, overwriteData.entries, name, parentTypes);
      }
    }

    /** Applies an answer that whatever raw overwrites the stored entries soundly reflect call for. */
    method ApplyOverwrite(t: TypeName, data: Fields) returns (r: Fields)
      requires Acyclic(credentialTypes)
      ensures forall raw :: Sound(credentialTypes, raw, overwriteData.entries) ==>
                AppliesAnswer(credentialTypes, raw, t, t in skipTypes, data, r)
    {
      var found := Get(t);
      r := data;
      if found.None? {
        assert r == Applied(found, t in skipTypes, data);
        return;
      }
      var o := found.value;
      if t in skipTypes && IsCustomized(data, o) {
        assert r == Applied(found, t in skipTypes, data);
        return;
      }
      var keys := o.Keys;
      while keys != {}
        invariant keys <= o.Keys
        invariant r == data + map k | k in o.Keys - keys && IsEmpty(data, k) :: o[k]
        decreases keys
      {
        var k :| k in keys;
        if IsEmpty(r, k) {
          r := r[k := o[k]];
        }
        keys := keys - {k};
      }
      assert o.Keys - keys == o.Keys;
      assert r == Applied(found, t in skipTypes, data);
    }
  }
}
