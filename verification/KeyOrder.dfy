/**
 * When the key order of the overwrites matters, on a small family of types: one with two parents and one that
 * extends it, with any overwrites.
 */
module KeyOrder {
  import opened Wrappers
  import opened CredentialTypes
  import opened CredentialsOverwrites

  const FAMILY: Catalog :=
    map["p1" := None, "p2" := None, "app" := Some(["p1", "p2"]), "leaf" := Some(["app"])]

  lemma FamilyAcyclic()
    ensures Acyclic(FAMILY)
  {
    RankedIsAcyclic(FAMILY, t => if t == "leaf" then 2 else if t == "app" then 1 else 0);
  }

  lemma AppParents()
    ensures ListsAncestors(FAMILY, "app", ["p1", "p2"])
  {
    var c, r := FAMILY, ["p1", "p2"];
    assert Extends(c, "app") == r && Extends(c, "p1") == [] && Extends(c, "p2") == [];
    NoParents(c, "p1");
    NoParents(c, "p2");
    forall a
      ensures a in r <==> Ancestor(c, a, "app")
    {
      if a in r { ParentIsAncestor(c, a, "app"); }
      if Ancestor(c, a, "app") { var p := AncestorViaParent(c, a, "app"); }
    }
    assert Introduced(c, "app", r, 0) && Introduced(c, "app", r, 1);
  }

  /** What `get` answers for `app` once the overwrites are flattened in the order `keys`. */
  ghost function Read(raw: OverwriteMap, keys: seq<TypeName>): Option<Fields> {
    FamilyAcyclic();
    Gathered(Flatten(FAMILY, raw, keys).data, ["app"] + ["p1", "p2"])
  }

  function Own(data: OverwriteMap, t: TypeName): Fields {
    FieldsOf(Lookup(data, t))
  }

  /** The two parents, the later one winning, under the type's own fields: what flattening stores. */
  function Merged(raw: OverwriteMap): Fields {
    Own(raw, "p1") + Own(raw, "p2") + Own(raw, "app")
  }

  /** `app` is visited before anything has resolved it. */
  predicate AppComesFirst(keys: seq<TypeName>) {
    keys != []
    && var init, last := keys[..|keys| - 1], keys[|keys| - 1];
       AppComesFirst(init) || (last == "app" && "app" !in init && "leaf" !in init)
  }

  // ---------------------------------------------------------------- One visit

  /** Parents and `app` as flattening leaves them: the parents raw, `app` raw or merged. */
  ghost predicate Profile(raw: OverwriteMap, s: Store, keys: seq<TypeName>) {
    && s.data.Keys == raw.Keys
    && Lookup(s.data, "p1") == Lookup(raw, "p1") && Lookup(s.data, "p2") == Lookup(raw, "p2")
    && ("app" in raw ==> s.data["app"] == if AppComesFirst(keys) then Merged(raw) else raw["app"])
    && ("app" in s.resolvedTypes <==> "app" in keys || "leaf" in keys)
    && ("leaf" in s.resolvedTypes ==> "app" in s.resolvedTypes)
  }

  lemma ResolveParent(s: Store, p: TypeName)
    requires Acyclic(FAMILY) && (p == "p1" || p == "p2")
    ensures var o := Overwrites(FAMILY, s.data, s.resolvedTypes, p);
            o.found == Lookup(s.data, p) && (o.resolvedTypes == s.resolvedTypes || o.resolvedTypes == s.resolvedTypes + [p])
  {
  }

  lemma ResolveApp(s: Store)
    requires Acyclic(FAMILY) && "app" !in s.resolvedTypes
    ensures var o := Overwrites(FAMILY, s.data, s.resolvedTypes, "app");
            o.found == Some(Merged(s.data)) && "app" in o.resolvedTypes
  {
    var none := MergeParents(FAMILY, s.data, s.resolvedTypes, "app", 0);
    ResolveParent(s, "p1");
    var one := MergeParents(FAMILY, s.data, s.resolvedTypes, "app", 1);
    assert none.found == Some(map[]) && map[] + Own(s.data, "p1") == Own(s.data, "p1");
    assert one.found == Some(Own(s.data, "p1"));
    ResolveParent(Store(s.data, one.resolvedTypes), "p2");
    assert MergeParents(FAMILY, s.data, s.resolvedTypes, "app", 2).found == Some(Own(s.data, "p1") + Own(s.data, "p2"));
  }

  lemma ResolveLeaf(s: Store)
    requires Acyclic(FAMILY)
    ensures "app" in s.resolvedTypes || "leaf" !in s.resolvedTypes ==>
              "app" in Overwrites(FAMILY, s.data, s.resolvedTypes, "leaf").resolvedTypes
  {
    if "leaf" !in s.resolvedTypes {
      var none := MergeParents(FAMILY, s.data, s.resolvedTypes, "leaf", 0);
      if "app" !in s.resolvedTypes {
        ResolveApp(s);
      }
      assert "app" in MergeParents(FAMILY, s.data, s.resolvedTypes, "leaf", 1).resolvedTypes;
    }
  }

  lemma VisitParent(raw: OverwriteMap, s: Store, keys: seq<TypeName>, p: TypeName)
    requires Acyclic(FAMILY) && Profile(raw, s, keys) && (p == "p1" || p == "p2") && p in raw
    ensures Profile(raw, Visit(FAMILY, s, p), keys + [p])
  {
    ResolveParent(s, p);
    assert s.data[p := s.data[p]] == s.data;
    Appended(keys, p);
  }

  /** What a last key other than "app" changes. */
  lemma Appended(keys: seq<TypeName>, t: TypeName)
    ensures AppComesFirst(keys + [t]) <==> AppComesFirst(keys) || (t == "app" && "app" !in keys && "leaf" !in keys)
  {
    assert (keys + [t])[..|keys|] == keys;
  }

  lemma VisitApp(raw: OverwriteMap, s: Store, keys: seq<TypeName>)
    requires Acyclic(FAMILY) && Profile(raw, s, keys) && "app" in raw
    ensures Profile(raw, Visit(FAMILY, s, "app"), keys + ["app"])
  {
    Appended(keys, "app");
    if "app" in s.resolvedTypes {
      assert s.data["app" := s.data["app"]] == s.data;
    } else {
      ResolveApp(s);
      NotYetFirst(keys);
      assert Merged(s.data) == Merged(raw);
      assert Merged(raw) == map[] ==> raw["app"] == map[] by {
        assert raw["app"].Keys <= Merged(raw).Keys;
      }
    }
  }

  lemma {:induction false} NotYetFirst(keys: seq<TypeName>)
    requires "app" !in keys
    ensures !AppComesFirst(keys)
  {
    if keys != [] {
      assert keys[|keys| - 1] in keys;
      NotYetFirst(keys[..|keys| - 1]);
    }
  }

  lemma VisitLeaf(raw: OverwriteMap, s: Store, keys: seq<TypeName>)
    requires Acyclic(FAMILY) && Profile(raw, s, keys) && "leaf" in raw
    ensures Profile(raw, Visit(FAMILY, s, "leaf"), keys + ["leaf"])
  {
    Appended(keys, "leaf");
    ResolveLeaf(s);
  }

  lemma VisitUnknown(raw: OverwriteMap, s: Store, keys: seq<TypeName>, t: TypeName)
    requires Acyclic(FAMILY) && Profile(raw, s, keys) && t in raw && t !in FAMILY
    ensures Profile(raw, Visit(FAMILY, s, t), keys + [t])
  {
    Appended(keys, t);
    assert s.data[t := s.data[t]] == s.data;
  }

  lemma {:induction false} FlattenProfile(raw: OverwriteMap, keys: seq<TypeName>)
    requires forall t :: t in keys ==> t in raw
    ensures Acyclic(FAMILY) && Profile(raw, Flatten(FAMILY, raw, keys), keys)
    decreases |keys|
  {
    FamilyAcyclic();
    if keys != [] {
      var init, t := keys[..|keys| - 1], keys[|keys| - 1];
      FlattenProfile(raw, init);
      assert keys == init + [t] && t in keys;
      var s := Flatten(FAMILY, raw, init);
      if t == "p1" || t == "p2" {
        VisitParent(raw, s, init, t);
      } else if t == "app" {
        VisitApp(raw, s, init);
      } else if t == "leaf" {
        VisitLeaf(raw, s, init);
      } else {
        VisitUnknown(raw, s, init, t);
      }
    }
  }

  // ---------------------------------------------------------------- What is read

  lemma GatherThree(data: OverwriteMap)
    ensures var o := Gathered(data, ["app"] + ["p1", "p2"]);
            && (o.Some? <==> "app" in data || "p1" in data || "p2" in data)
            && FieldsOf(o) == Own(data, "p2") + Own(data, "p1") + Own(data, "app")
  {
    var names := ["app"] + ["p1", "p2"];
    assert names == ["app", "p1", "p2"] && names[1..] == ["p1", "p2"];
    assert ["p1", "p2"][1..] == ["p2"] && ["p2"][1..] == [];
    assert Overlay(data, ["p2"]) == Own(data, "p2");
    assert Overlay(data, ["p1", "p2"]) == Own(data, "p2") + Own(data, "p1");
    assert names[0] in names && names[1] in names && names[2] in names;
    if !Gathered(data, names).Some? {
      assert Own(data, "p2") + Own(data, "p1") + Own(data, "app") == map[];
    }
  }

  /** With the merged entry the later parent wins, with the raw one the earlier. */
  lemma ReadsExactly(raw: OverwriteMap, keys: seq<TypeName>)
    requires forall t :: t in keys ==> t in raw
    ensures var o := Read(raw, keys);
            && (o.Some? <==> "app" in raw || "p1" in raw || "p2" in raw)
            && FieldsOf(o) == if "app" in raw && AppComesFirst(keys) then Merged(raw)
                              else Own(raw, "p2") + Own(raw, "p1") + Own(raw, "app")
  {
    FlattenProfile(raw, keys);
    var data := Flatten(FAMILY, raw, keys).data;
    GatherThree(data);
    assert Own(data, "p1") == Own(raw, "p1") && Own(data, "p2") == Own(raw, "p2");
    if "app" in raw && AppComesFirst(keys) {
      assert Own(raw, "p2") + Own(raw, "p1") + Merged(raw) == Merged(raw);
    } else {
      assert Own(data, "app") == Own(raw, "app");
    }
  }

  /** The parents give a field different values and the type itself does not set it. */
  ghost predicate Conflict(raw: OverwriteMap) {
    exists k :: k in Own(raw, "p1") && k in Own(raw, "p2") && Own(raw, "p1")[k] != Own(raw, "p2")[k]
                && k !in Own(raw, "app")
  }

  lemma DiffersExactly(raw: OverwriteMap)
    ensures Merged(raw) == Own(raw, "p2") + Own(raw, "p1") + Own(raw, "app") <==> !Conflict(raw)
  {
    var merged, plain := Merged(raw), Own(raw, "p2") + Own(raw, "p1") + Own(raw, "app");
    if k :| k in Own(raw, "p1") && k in Own(raw, "p2") && Own(raw, "p1")[k] != Own(raw, "p2")[k] && k !in Own(raw, "app") {
      assert merged[k] == Own(raw, "p2")[k] && plain[k] == Own(raw, "p1")[k];
    } else {
      assert forall k :: k in merged ==> merged[k] == plain[k];
    }
  }

  // ---------------------------------------------------------------- Orders

  lemma {:induction false} EnumerationExists(raw: OverwriteMap) returns (keys: seq<TypeName>)
    ensures Enumerates(keys, raw)
    decreases |raw|
  {
    if raw == map[] {
      keys := [];
    } else {
      var t :| t in raw;
      var rest := EnumerationExists(raw - {t});
      keys := [t] + rest;
      PrependKey(raw, t, rest);
    }
  }

  lemma EnumerationFrom(raw: OverwriteMap, first: TypeName) returns (keys: seq<TypeName>)
    requires first in raw
    ensures Enumerates(keys, raw) && keys[0] == first
  {
    var rest := EnumerationExists(raw - {first});
    keys := [first] + rest;
    PrependKey(raw, first, rest);
  }

  lemma PrependKey(raw: OverwriteMap, t: TypeName, rest: seq<TypeName>)
    requires t in raw && Enumerates(rest, raw - {t})
    ensures Enumerates([t] + rest, raw)
  {
    assert t !in rest;
    assert forall j :: 0 <= j < |rest| ==> rest[j] in rest;
  }

  /** Whether `app` comes first is settled by which of it and `leaf` does. */
  lemma {:induction false} FirstSettles(keys: seq<TypeName>)
    requires keys != []
    ensures keys[0] == "app" ==> AppComesFirst(keys)
    ensures keys[0] == "leaf" ==> !AppComesFirst(keys)
    decreases |keys|
  {
    if |keys| > 1 {
      var init := keys[..|keys| - 1];
      FirstSettles(init);
      assert init[0] == keys[0] && keys[0] in init;
    } else {
      assert keys[..0] == [];
    }
  }

  lemma {:induction false} FirstWithoutLeaf(keys: seq<TypeName>)
    requires "app" in keys && "leaf" !in keys
    ensures AppComesFirst(keys)
    decreases |keys|
  {
    var init := keys[..|keys| - 1];
    assert keys == init + [keys[|keys| - 1]];
    if "app" in init {
      FirstWithoutLeaf(init);
    }
  }

  ghost predicate OrderIndependent(raw: OverwriteMap) {
    forall a, b | Enumerates(a, raw) && Enumerates(b, raw) :: Read(raw, a) == Read(raw, b)
  }

  /** For every set of overwrites: the key order matters exactly if the type and the type extending it both
      have overwrites of their own, and the parents conflict in a field that the type leaves alone. */
  lemma OrderMattersExactly(raw: OverwriteMap)
    ensures OrderIndependent(raw) <==> !("app" in raw && "leaf" in raw && Conflict(raw))
  {
    DiffersExactly(raw);
    if "app" in raw && "leaf" in raw && Conflict(raw) {
      var a := EnumerationFrom(raw, "app");
      var b := EnumerationFrom(raw, "leaf");
      FirstSettles(a);
      FirstSettles(b);
      ReadsExactly(raw, a);
      ReadsExactly(raw, b);
      assert Read(raw, a) != Read(raw, b);
    } else {
      forall a, b | Enumerates(a, raw) && Enumerates(b, raw)
        ensures Read(raw, a) == Read(raw, b)
      {
        ReadsExactly(raw, a);
        ReadsExactly(raw, b);
        if "app" in raw && "leaf" !in raw {
          FirstWithoutLeaf(a);
          FirstWithoutLeaf(b);
        }
      }
    }
  }

  // ---------------------------------------------------------------- An input

  const RAW: OverwriteMap :=
    map["p1" := map["k" := Number(1)], "p2" := map["k" := Number(2)],
        "app" := map["x" := Number(0)], "leaf" := map["y" := Number(0)]]

  const APP_FIRST := ["app", "p1", "p2", "leaf"]
  const LEAF_FIRST := ["leaf", "app", "p1", "p2"]

  lemma CompleteOrders()
    ensures Enumerates(APP_FIRST, RAW) && Enumerates(LEAF_FIRST, RAW)
  {
    assert RAW.Keys == {"p1", "p2", "app", "leaf"};
  }

  /**
   * The stored entry takes the later parent's value while `get` prefers the earlier parent's, so the key
   * order decides which of the two a reader sees: 2 when `app` comes first, 1 when its child has already
   * resolved it.
   */
  lemma KeyOrderMatters()
    ensures Enumerates(APP_FIRST, RAW) && Enumerates(LEAF_FIRST, RAW)
    ensures Acyclic(FAMILY) && ListsAncestors(FAMILY, "app", ["p1", "p2"])
    ensures Read(RAW, APP_FIRST) == Some(map["k" := Number(2), "x" := Number(0)])
    ensures Read(RAW, LEAF_FIRST) == Some(map["k" := Number(1), "x" := Number(0)])
  {
    FamilyAcyclic();
    AppParents();
    CompleteOrders();
    FirstSettles(APP_FIRST);
    FirstSettles(LEAF_FIRST);
    ReadsExactly(RAW, APP_FIRST);
    ReadsExactly(RAW, LEAF_FIRST);
    RawFields();
  }

  lemma RawFields()
    ensures "app" in RAW && Merged(RAW) == map["k" := Number(2), "x" := Number(0)]
    ensures Own(RAW, "p2") + Own(RAW, "p1") + Own(RAW, "app") == map["k" := Number(1), "x" := Number(0)]
  {
    assert Own(RAW, "p1") == map["k" := Number(1)] && Own(RAW, "p2") == map["k" := Number(2)];
    assert Own(RAW, "app") == map["x" := Number(0)];
  }

  const PARENTS_RAW: OverwriteMap := map["p1" := map["k" := Number(1)], "p2" := map["k" := Number(2)]]

  /** Ambiguity is not enough for the key order to matter: here a field of `app` has two nearest values, but
      `app` has no entry that could keep one of them, and every order reads the same. */
  lemma AmbiguousButStable()
    ensures Acyclic(FAMILY) && !Unambiguous(FAMILY, PARENTS_RAW, "app") && OrderIndependent(PARENTS_RAW)
  {
    FamilyAcyclic();
    OrderMattersExactly(PARENTS_RAW);
    NearestOwn(FAMILY, PARENTS_RAW, "p1", "k");
    NearestOwn(FAMILY, PARENTS_RAW, "p2", "k");
    assert Extends(FAMILY, "app") == ["p1", "p2"];
    NearestUp(FAMILY, PARENTS_RAW, "app", "p1", "k", Number(1));
    NearestUp(FAMILY, PARENTS_RAW, "app", "p2", "k", Number(2));
  }
}
