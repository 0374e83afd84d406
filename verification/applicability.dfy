/** When the API server lets a whole policy through: a condition on the cluster before the apply. */
module Applicability {
  import opened Kube
  import opened Installer
  import opened Landing
  import opened Meaning
  import A = Authorization

  /** The namespace is there, or the policy brings it, or nothing needs to be created in it. */
  ghost predicate NamespaceReady(inp: Input, store: Store, s: string) {
    s == "" || Key(NamespaceKind, "", s) in store || A.Brings(inp, s) || (Holder(inp.base, s) in store && Binder(inp.base, s) in store)
  }

  /** A binding that is there refers to the role that the policy binds. */
  ghost predicate RefReady(inp: Input, store: Store, s: string) {
    Binder(inp.base, s) in store && store[Binder(inp.base, s)].Binding? ==>
      store[Binder(inp.base, s)].roleRef == OwnRef(inp.base, s)
  }

  ghost predicate Applicable(inp: Input, store: Store) {
    forall s :: s in inp.Scopes() ==> NamespaceReady(inp, store, s) && RefReady(inp, store, s)
  }

  /** The first write of a key. */
  lemma {:induction false} FirstWrite(objects: seq<Object>, key: Key) returns (k: nat)
    requires Touches(objects, key)
    ensures k < |objects| && objects[k].key == key && !Touches(objects[..k], key)
  {
    var init, last := objects[..|objects| - 1], objects[|objects| - 1];
    if Touches(init, key) {
      k := FirstWrite(init, key);
      assert objects[..k] == init[..k];
    } else {
      k := |objects| - 1;
    }
  }

  /** What stands before the write number k, at the key it is about. */
  lemma BeforeWrite(inp: Input, store: Store, order: seq<string>, k: nat)
    requires inp.Order(order) && k < |inp.Writes(order)|
    ensures var o, before := inp.Writes(order)[k], LandAll(store, inp.Writes(order)[..k]);
            && (o.key in store ==> o.key in before)
            && (o.key in before ==> before[o.key] == if o.key in store && !Touches(inp.Writes(order)[..k], o.key) then store[o.key]
                                                     else Landed(store, o))
            && (o.key !in store && !Touches(inp.Writes(order)[..k], o.key) ==> o.key !in before)
  {
    var writes := inp.Writes(order);
    A.PrefixConsistent(inp, order, k);
    LandAllAt(store, writes[..k], writes[k].key);
    if p :| p in writes[..k] && p.key == writes[k].key {
      WritesConsistent(inp, order);
      assert p == writes[k];
    }
  }

  lemma ApplicableIsAccepted(inp: Input, store: Store, order: seq<string>, k: nat)
    requires inp.Order(order) && k < |inp.Writes(order)| && Applicable(inp, store)
    ensures AcceptsNext(store, inp.Writes(order), k)
  {
    var o := inp.Writes(order)[k];
    BeforeWrite(inp, store, order, k);
    A.NamespacesComeFirst(inp, store, order, k);
    InWrites(inp, order, o);
    if s :| s in inp.Scopes() && (o == inp.RoleIn(s) || o == inp.BindingIn(s)) {
      assert NamespaceReady(inp, store, s) && RefReady(inp, store, s);
    }
  }

  /** A write of a key that goes through tells something about the cluster before the apply. */
  lemma AcceptedTells(inp: Input, store: Store, order: seq<string>, n: nat, s: string, key: Key)
    requires inp.Order(order) && n <= |inp.Writes(order)| && AcceptsAll(store, inp.Writes(order)[..n])
    requires s in inp.Scopes() && (key == Holder(inp.base, s) || key == Binder(inp.base, s))
    requires Touches(inp.Writes(order)[..n], key)
    ensures key !in store ==> s == "" || Key(NamespaceKind, "", s) in store || A.Brings(inp, s)
    ensures key == Binder(inp.base, s) ==> RefReady(inp, store, s)
  {
    var k := FirstWrite(inp.Writes(order)[..n], key);
    assert inp.Writes(order)[..n][..k] == inp.Writes(order)[..k];
    AcceptsPrefix(store, inp.Writes(order), n);
    assert AcceptsNext(store, inp.Writes(order), k);
    BeforeWrite(inp, store, order, k);
    A.NamespacesComeFirst(inp, store, order, k);
    InWrites(inp, order, inp.Writes(order)[k]);
  }

  /** A policy that is applicable after some of its objects have gone through was so before. */
  lemma ApplicableBefore(inp: Input, store: Store, order: seq<string>, n: nat)
    requires inp.Order(order) && n <= |inp.Writes(order)| && AcceptsAll(store, inp.Writes(order)[..n])
    requires Applicable(inp, LandAll(store, inp.Writes(order)[..n]))
    ensures Applicable(inp, store)
  {
    var part := inp.Writes(order)[..n];
    A.PrefixConsistent(inp, order, n);
    forall s | s in inp.Scopes() ensures NamespaceReady(inp, store, s) && RefReady(inp, store, s) {
      assert NamespaceReady(inp, LandAll(store, part), s) && RefReady(inp, LandAll(store, part), s);
      LandAllAt(store, part, Holder(inp.base, s));
      LandAllAt(store, part, Binder(inp.base, s));
      if Touches(part, Holder(inp.base, s)) { AcceptedTells(inp, store, order, n, s, Holder(inp.base, s)); }
      if Touches(part, Binder(inp.base, s)) { AcceptedTells(inp, store, order, n, s, Binder(inp.base, s)); }
      LandAllAt(store, part, Key(NamespaceKind, "", s));
      if o :| o in part && o.key == Key(NamespaceKind, "", s) {
        InWrites(inp, order, o);
      }
    }
  }

  /** Once applied, always applicable. */
  lemma ApplicableAfter(inp: Input, store: Store, order: seq<string>)
    requires inp.Order(order)
    ensures Applicable(inp, LandAll(store, inp.Writes(order)))
  {
    forall s | s in inp.Scopes()
      ensures NamespaceReady(inp, LandAll(store, inp.Writes(order)), s) && RefReady(inp, LandAll(store, inp.Writes(order)), s)
    {
      A.AppliedAt(inp, store, order, s);
    }
  }

  /** The API server lets the whole policy through, in whatever order, exactly when it is applicable. */
  lemma AcceptedIffApplicable(inp: Input, store: Store, order: seq<string>)
    requires inp.Order(order)
    ensures AcceptsAll(store, inp.Writes(order)) <==> Applicable(inp, store)
  {
    if Applicable(inp, store) {
      forall k | 0 <= k < |inp.Writes(order)| ensures AcceptsNext(store, inp.Writes(order), k) {
        ApplicableIsAccepted(inp, store, order, k);
      }
    }
    if AcceptsAll(store, inp.Writes(order)) {
      assert inp.Writes(order)[..|inp.Writes(order)|] == inp.Writes(order);
      ApplicableAfter(inp, store, order);
      ApplicableBefore(inp, store, order, |inp.Writes(order)|);
    }
  }

  /** An apply succeeds without faults if and only if the policy is applicable, and then lands it all. */
  lemma ApplySucceedsIff(inp: Input, a: Api, order: seq<string>)
    requires inp.Order(order) && a.faults == []
    ensures ApplyAll(a, inp.Writes(order)).1 <==> Applicable(inp, a.store)
    ensures Applicable(inp, a.store) ==> ApplyAll(a, inp.Writes(order)) == (Api(LandAll(a.store, inp.Writes(order)), []), true)
  {
    AcceptedIffApplicable(inp, a.store, order);
    ApplyAllSucceeds(a, inp.Writes(order));
  }

  /** An attempt, whatever becomes of it, does not make a policy applicable that was not; one that
      succeeds shows that it was. */
  lemma AttemptTells(inp: Input, a: Api, order: seq<string>)
    requires inp.Order(order)
    requires ApplyAll(a, inp.Writes(order)).1 || Applicable(inp, ApplyAll(a, inp.Writes(order)).0.store)
    ensures Applicable(inp, a.store)
  {
    var n := ApplyAllLands(a, inp.Writes(order));
    if ApplyAll(a, inp.Writes(order)).1 {
      assert inp.Writes(order)[..n] == inp.Writes(order);
      AcceptedIffApplicable(inp, a.store, order);
    } else {
      ApplicableBefore(inp, a.store, order, n);
    }
  }
}
