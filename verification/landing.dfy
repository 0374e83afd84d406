/** What the writes of the installer amount to, independently of how they are sent: a store in which
    each object has landed. Everything that is proved about applying and uninstalling goes through
    this view. */
module Landing {
  import opened Kube
  import opened Installer

  // ------------------------------------------------------------ merging rules

  function Count(x: Rule, rules: seq<Rule>): nat { multiset(rules)[x] }

  /** The old rules stay in front; the result holds the union; a rule that was not there is added
      exactly once however often it is wanted, and the others keep their multiplicity. */
  lemma {:induction false} MergeKeepsAndAdds(existing: seq<Rule>, wanted: seq<Rule>)
    ensures existing <= MergeRules(existing, wanted)
    ensures forall x :: x in MergeRules(existing, wanted) <==> x in existing || x in wanted
    ensures forall x :: Count(x, MergeRules(existing, wanted)) ==
                        if x in existing then Count(x, existing) else if x in wanted then 1 else 0
  {
    if wanted == [] {
    } else {
      var init, last := wanted[..|wanted| - 1], wanted[|wanted| - 1];
      assert wanted == init + [last];
      MergeKeepsAndAdds(existing, init);
      var merged := MergeRules(existing, init);
      forall x
        ensures Count(x, MergeRules(existing, wanted)) ==
                if x in existing then Count(x, existing) else if x in wanted then 1 else 0
      {
        assert Count(x, merged + [last]) == Count(x, merged) + (if x == last then 1 else 0);
      }
    }
  }

  /** Nothing changes exactly when nothing is new, which is when the installer does not write. */
  lemma {:induction false} MergeNothingNew(existing: seq<Rule>, wanted: seq<Rule>)
    ensures MergeRules(existing, wanted) == existing <==> forall x :: x in wanted ==> x in existing
  {
    MergeKeepsAndAdds(existing, wanted);
    if wanted == [] {
    } else {
      var init, last := wanted[..|wanted| - 1], wanted[|wanted| - 1];
      assert wanted == init + [last];
      MergeKeepsAndAdds(existing, init);
      MergeNothingNew(existing, init);
    }
  }

  /** A whole history of applies to one role. */
  function MergeHistory(existing: seq<Rule>, applies: seq<seq<Rule>>): seq<Rule> {
    if applies == [] then existing
    else MergeRules(MergeHistory(existing, applies[..|applies| - 1]), applies[|applies| - 1])
  }

  lemma {:induction false} MergeHistoryRules(existing: seq<Rule>, applies: seq<seq<Rule>>)
    ensures forall x :: x in MergeHistory(existing, applies) <==>
                        x in existing || exists a :: a in applies && x in a
    ensures forall x :: Count(x, MergeHistory(existing, applies)) ==
                        if x in existing then Count(x, existing) else if x in MergeHistory(existing, applies) then 1 else 0
  {
    if applies == [] {
    } else {
      var init, last := applies[..|applies| - 1], applies[|applies| - 1];
      assert applies == init + [last];
      MergeHistoryRules(existing, init);
      MergeKeepsAndAdds(MergeHistory(existing, init), last);
    }
  }

  /** In whatever order, and however often, the same applies are made, the role ends up with the
      same set of rules, each of the new ones in it once. */
  lemma MergeOrderIrrelevant(existing: seq<Rule>, some: seq<seq<Rule>>, others: seq<seq<Rule>>)
    requires forall a :: a in some <==> a in others
    ensures forall x :: x in MergeHistory(existing, some) <==> x in MergeHistory(existing, others)
    ensures forall x :: x !in existing && x in MergeHistory(existing, some) ==>
                          Count(x, MergeHistory(existing, some)) == Count(x, MergeHistory(existing, others)) == 1
  {
    MergeHistoryRules(existing, some);
    MergeHistoryRules(existing, others);
  }

  // ------------------------------------------------------------ landing objects in a store

  function Landed(store: Store, o: Object): Body {
    if o.key in store then Settled(o.key, store[o.key], o.body) else o.body
  }

  function LandAll(store: Store, objects: seq<Object>): Store {
    if objects == [] then store
    else
      var before := LandAll(store, objects[..|objects| - 1]);
      var o := objects[|objects| - 1];
      before[o.key := Landed(before, o)]
  }

  lemma LandingTwice(store: Store, o: Object)
    ensures Settled(o.key, Landed(store, o), o.body) == Landed(store, o)
  {
    var rules := RulesOf(o.body);
    if o.key.HoldsRules() {
      MergeNothingNew(rules, rules);
      if o.key in store {
        var existing := RulesOf(store[o.key]);
        MergeKeepsAndAdds(existing, rules);
        MergeNothingNew(existing, rules);
        MergeNothingNew(MergeRules(existing, rules), rules);
      }
    }
  }

  /** A policy never wants two different things under one key. */
  ghost predicate Consistent(objects: seq<Object>) {
    forall o, p :: o in objects && p in objects && o.key == p.key ==> o == p
  }

  ghost predicate Touches(objects: seq<Object>, key: Key) {
    exists o :: o in objects && o.key == key
  }

  /** The store after landing objects, key by key. The order of the objects does not appear. */
  lemma {:induction false} LandAllAt(store: Store, objects: seq<Object>, key: Key)
    requires Consistent(objects)
    ensures key in LandAll(store, objects) <==> key in store || Touches(objects, key)
    ensures key in store && !Touches(objects, key) ==> LandAll(store, objects)[key] == store[key]
    ensures forall o :: o in objects && o.key == key ==> LandAll(store, objects)[key] == Landed(store, o)
  {
    if objects == [] {
    } else {
      var init, last := objects[..|objects| - 1], objects[|objects| - 1];
      assert objects == init + [last];
      LandAllAt(store, init, key);
      LandingTwice(store, last);
      assert last in objects;
      if Touches(init, key) {
        var o :| o in init && o.key == key;
        assert o in objects;
      }
    }
  }

  lemma SameStore(a: Store, b: Store)
    requires forall key :: key in a <==> key in b
    requires forall key :: key in a ==> a[key] == b[key]
    ensures a == b
  {
  }

  /** Two runs over the same objects end in the same store, whatever their orders. */
  lemma LandAllOrderIrrelevant(store: Store, xs: seq<Object>, ys: seq<Object>)
    requires Consistent(xs)
    requires forall o :: o in xs <==> o in ys
    ensures LandAll(store, xs) == LandAll(store, ys)
  {
    forall key
      ensures key in LandAll(store, xs) <==> key in LandAll(store, ys)
      ensures key in LandAll(store, xs) ==> LandAll(store, xs)[key] == LandAll(store, ys)[key]
    {
      LandAllAt(store, xs, key);
      LandAllAt(store, ys, key);
    }
    SameStore(LandAll(store, xs), LandAll(store, ys));
  }

  /** Objects that have landed before, all of them to be landed again, make no difference. */
  lemma LandAllAbsorbs(store: Store, partial: seq<Object>, all: seq<Object>)
    requires Consistent(all)
    requires forall o :: o in partial ==> o in all
    ensures LandAll(LandAll(store, partial), all) == LandAll(store, all)
  {
    var mid := LandAll(store, partial);
    forall key
      ensures key in LandAll(mid, all) <==> key in LandAll(store, all)
      ensures key in LandAll(mid, all) ==> LandAll(mid, all)[key] == LandAll(store, all)[key]
    {
      LandAllAt(store, partial, key);
      LandAllAt(store, all, key);
      LandAllAt(mid, all, key);
      if Touches(all, key) {
        var o :| o in all && o.key == key;
        LandingTwice(store, o);
      }
    }
    SameStore(LandAll(mid, all), LandAll(store, all));
  }

  lemma {:induction false} LandAllConcat(store: Store, xs: seq<Object>, ys: seq<Object>)
    ensures LandAll(store, xs + ys) == LandAll(LandAll(store, xs), ys)
  {
    if ys == [] {
      assert xs + ys == xs;
    } else {
      assert (xs + ys)[..|xs + ys| - 1] == xs + ys[..|ys| - 1];
      LandAllConcat(store, xs, ys[..|ys| - 1]);
    }
  }

  // ------------------------------------------------------------ the installer's calls land objects

  /** The API server lets each object through when its turn comes. */
  ghost predicate AcceptsNext(store: Store, objects: seq<Object>, k: nat)
    requires k < |objects|
  {
    var before := LandAll(store, objects[..k]);
    Accepts(before, objects[k].key, Landed(before, objects[k]))
  }

  ghost predicate AcceptsAll(store: Store, objects: seq<Object>) {
    forall k :: 0 <= k < |objects| ==> AcceptsNext(store, objects, k)
  }

  lemma AcceptsPrefix(store: Store, objects: seq<Object>, n: nat)
    requires n <= |objects|
    ensures AcceptsAll(store, objects[..n]) <==> forall k :: 0 <= k < n ==> AcceptsNext(store, objects, k)
  {
    forall k | 0 <= k < n ensures AcceptsNext(store, objects[..n], k) == AcceptsNext(store, objects, k) {
      assert objects[..n][..k] == objects[..k];
    }
  }

  lemma AcceptsLast(store: Store, objects: seq<Object>)
    requires objects != []
    ensures AcceptsAll(store, objects) <==>
            AcceptsAll(store, objects[..|objects| - 1]) && AcceptsNext(store, objects, |objects| - 1)
  {
    AcceptsPrefix(store, objects, |objects| - 1);
  }

  /** One apply: whatever the fault, the object has landed or the store is as it was; it lands only if
      it is let through, and without faults it does land if it is. */
  lemma ApplyObjectLands(a: Api, o: Object)
    ensures var (b, ok) := ApplyObject(a, o);
            var landed := Landed(a.store, o);
            && (b.store == a.store || (b.store == a.store[o.key := landed] && Accepts(a.store, o.key, landed)))
            && (ok ==> b.store == a.store[o.key := landed] && Accepts(a.store, o.key, landed))
            && (a.faults == [] ==> b.faults == [] && (ok <==> Accepts(a.store, o.key, landed)))
  {
    if o.key in a.store && Landed(a.store, o) == a.store[o.key] {
      assert a.store[o.key := Landed(a.store, o)] == a.store;
    }
  }

  /** Whatever the faults, a run of the installer has landed the first n objects and no others, all of
      them let through, and all the objects when it reports success. */
  lemma {:induction false} ApplyAllLands(a: Api, objects: seq<Object>) returns (n: nat)
    ensures n <= |objects| && AcceptsAll(a.store, objects[..n])
    ensures ApplyAll(a, objects).0.store == LandAll(a.store, objects[..n])
    ensures ApplyAll(a, objects).1 ==> n == |objects|
  {
    if objects == [] {
      n := 0;
    } else {
      var init, last := objects[..|objects| - 1], objects[|objects| - 1];
      n := ApplyAllLands(a, init);
      assert init[..n] == objects[..n];
      if ApplyAll(a, init).1 {
        assert init[..|init|] == init && objects[..|objects|] == objects;
        ApplyObjectLands(ApplyAll(a, init).0, last);
        AcceptsLast(a.store, objects);
        if ApplyAll(a, objects).0.store == LandAll(a.store, objects) && AcceptsNext(a.store, objects, |init|) {
          n := |objects|;
        }
      }
    }
  }

  /** The faults that a run leaves are among those it was given. */
  lemma {:induction false} ApplyAllUses(a: Api, objects: seq<Object>)
    ensures forall f :: f in ApplyAll(a, objects).0.faults ==> f in a.faults
  {
    if objects == [] {
    } else {
      var init, last := objects[..|objects| - 1], objects[|objects| - 1];
      ApplyAllUses(a, init);
      ApplyObjectUses(ApplyAll(a, init).0, last);
    }
  }

  lemma ApplyObjectUses(a: Api, o: Object)
    ensures forall f :: f in ApplyObject(a, o).0.faults ==> f in a.faults
  {
  }

  /** Without faults a run succeeds if and only if everything is let through. */
  lemma {:induction false} ApplyAllSucceeds(a: Api, objects: seq<Object>)
    requires a.faults == []
    ensures ApplyAll(a, objects).1 <==> AcceptsAll(a.store, objects)
    ensures AcceptsAll(a.store, objects) ==> ApplyAll(a, objects) == (Api(LandAll(a.store, objects), []), true)
  {
    if objects == [] {
    } else {
      var init, last := objects[..|objects| - 1], objects[|objects| - 1];
      ApplyAllSucceeds(a, init);
      AcceptsLast(a.store, objects);
      ApplyObjectLands(ApplyAll(a, init).0, last);
    }
  }

  function KeySet(keys: seq<Key>): set<Key> { set k | k in keys }

  lemma {:induction false} DeleteAllRemoves(a: Api, keys: seq<Key>) returns (n: nat)
    ensures n <= |keys|
    ensures DeleteAll(a, keys).0.store == a.store - KeySet(keys[..n])
    ensures DeleteAll(a, keys).1 ==> n == |keys|
  {
    if keys == [] {
      assert KeySet(keys[..0]) == {};
      return 0;
    }
    var init, last := keys[..|keys| - 1], keys[|keys| - 1];
    n := DeleteAllRemoves(a, init);
    assert init[..n] == keys[..n];
    if DeleteAll(a, init).1 {
      assert keys[..|keys|] == keys == init + [last];
      assert init[..|init|] == init;
      assert KeySet(keys) == KeySet(init) + {last};
      var f := Head(DeleteAll(a, init).0.faults);
      if f.Lands() {
        n := |keys|;
        assert a.store - KeySet(init) - {last} == a.store - KeySet(keys);
      }
    }
  }

  lemma {:induction false} DeleteAllSucceeds(a: Api, keys: seq<Key>)
    requires a.faults == []
    ensures DeleteAll(a, keys) == (Api(a.store - KeySet(keys), []), true)
  {
    if keys == [] {
      assert KeySet(keys) == {};
      assert a.store - {} == a.store;
    } else {
      var init, last := keys[..|keys| - 1], keys[|keys| - 1];
      DeleteAllSucceeds(a, init);
      assert keys == init + [last];
      assert KeySet(keys) == KeySet(init) + {last};
      assert a.store - KeySet(init) - {last} == a.store - KeySet(keys);
    }
  }
}
