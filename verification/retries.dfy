/** Crash and retry: applies and uninstalls that fail anywhere, any number of times, and are repeated. */
module Retries {
  import opened Kube
  import opened Installer
  import opened Landing
  import opened Meaning
  import opened Applicability

  /** One run of the installer: the order in which the map happened to be traversed, and what went
      wrong on the way. */
  datatype Attempt = Attempt(order: seq<string>, faults: seq<Fault>)

  ghost predicate Orders(inp: Input, attempts: seq<Attempt>) {
    forall t :: t in attempts ==> inp.Order(t.order)
  }

  function ApplyAttempt(inp: Input, store: Store, t: Attempt): (Api, bool) {
    ApplyAll(Api(store, t.faults), inp.Writes(t.order))
  }

  function ApplyAttempts(inp: Input, store: Store, attempts: seq<Attempt>): Store {
    if attempts == [] then store
    else ApplyAttempt(inp, ApplyAttempts(inp, store, attempts[..|attempts| - 1]), attempts[|attempts| - 1]).0.store
  }

  /** Whatever the earlier attempts did before they failed, they landed objects of the policy. */
  lemma {:induction false} AttemptsLand(inp: Input, store: Store, attempts: seq<Attempt>, order: seq<string>)
    returns (landed: seq<Object>)
    requires Orders(inp, attempts) && inp.Order(order)
    ensures forall o :: o in landed ==> o in inp.Writes(order)
    ensures ApplyAttempts(inp, store, attempts) == LandAll(store, landed)
  {
    if attempts == [] { return []; }
    var init, t := attempts[..|attempts| - 1], attempts[|attempts| - 1];
    assert t in attempts;
    landed := AttemptsLand(inp, store, init, order);
    var n := ApplyAllLands(Api(ApplyAttempts(inp, store, init), t.faults), inp.Writes(t.order));
    var more := inp.Writes(t.order)[..n];
    LandAllConcat(store, landed, more);
    forall o | o in more ensures o in inp.Writes(order) {
      InWrites(inp, t.order, o);
      InWrites(inp, order, o);
    }
    landed := landed + more;
  }

  /** No attempt makes a policy applicable that was not. */
  lemma {:induction false} AttemptsTell(inp: Input, store: Store, attempts: seq<Attempt>)
    requires Orders(inp, attempts) && Applicable(inp, ApplyAttempts(inp, store, attempts))
    ensures Applicable(inp, store)
  {
    if attempts == [] {
    } else {
      var init, t := attempts[..|attempts| - 1], attempts[|attempts| - 1];
      assert t in attempts;
      AttemptTells(inp, Api(ApplyAttempts(inp, store, init), t.faults), t.order);
      AttemptsTell(inp, store, init);
    }
  }

  /** An apply that fails any number of times, anywhere, and then succeeds leaves exactly the store
      of one undisturbed run, whatever the map orders of all the attempts were. */
  lemma ApplyRetried(inp: Input, store: Store, attempts: seq<Attempt>, last: Attempt, order: seq<string>)
    requires Orders(inp, attempts) && inp.Order(last.order) && inp.Order(order)
    requires ApplyAttempt(inp, ApplyAttempts(inp, store, attempts), last).1
    ensures ApplyAttempt(inp, ApplyAttempts(inp, store, attempts), last).0.store == LandAll(store, inp.Writes(order))
    ensures ApplyAttempt(inp, store, Attempt(order, [])) == (Api(LandAll(store, inp.Writes(order)), []), true)
  {
    var landed := AttemptsLand(inp, store, attempts, last.order);
    var all := inp.Writes(last.order);
    var n := ApplyAllLands(Api(ApplyAttempts(inp, store, attempts), last.faults), all);
    assert all[..|all|] == all;
    WritesConsistent(inp, last.order);
    LandAllAbsorbs(store, landed, all);
    SameWrites(inp, last.order, order);
    LandAllOrderIrrelevant(store, all, inp.Writes(order));
    AttemptTells(inp, Api(ApplyAttempts(inp, store, attempts), last.faults), last.order);
    AttemptsTell(inp, store, attempts);
    ApplySucceedsIff(inp, Api(store, []), order);
  }

  function DeleteAttempt(inp: Input, store: Store, t: Attempt): (Api, bool) {
    DeleteAll(Api(store, t.faults), inp.Deletes(t.order))
  }

  function DeleteAttempts(inp: Input, store: Store, attempts: seq<Attempt>): Store {
    if attempts == [] then store
    else DeleteAttempt(inp, DeleteAttempts(inp, store, attempts[..|attempts| - 1]), attempts[|attempts| - 1]).0.store
  }

  lemma {:induction false} DeleteAttemptsRemove(inp: Input, store: Store, attempts: seq<Attempt>) returns (gone: set<Key>)
    requires Orders(inp, attempts)
    ensures gone <= DeletedKeys(inp)
    ensures DeleteAttempts(inp, store, attempts) == store - gone
  {
    if attempts == [] {
      assert store - {} == store;
      return {};
    }
    var init, t := attempts[..|attempts| - 1], attempts[|attempts| - 1];
    assert t in attempts;
    gone := DeleteAttemptsRemove(inp, store, init);
    var n := DeleteAllRemoves(Api(store - gone, t.faults), inp.Deletes(t.order));
    DeletesAre(inp, t.order);
    var more := KeySet(inp.Deletes(t.order)[..n]);
    assert store - gone - more == store - (gone + more);
    gone := gone + more;
  }

  /** The same for uninstalling. */
  lemma UninstallRetried(inp: Input, store: Store, attempts: seq<Attempt>, last: Attempt, order: seq<string>)
    requires Orders(inp, attempts) && inp.Order(last.order) && inp.Order(order)
    requires DeleteAttempt(inp, DeleteAttempts(inp, store, attempts), last).1
    ensures DeleteAttempt(inp, DeleteAttempts(inp, store, attempts), last).0.store
            == store - DeletedKeys(inp)
            == DeleteAttempt(inp, store, Attempt(order, [])).0.store
  {
    var gone := DeleteAttemptsRemove(inp, store, attempts);
    var n := DeleteAllRemoves(Api(store - gone, last.faults), inp.Deletes(last.order));
    assert inp.Deletes(last.order)[..n] == inp.Deletes(last.order);
    DeletesAre(inp, last.order);
    DeletesAre(inp, order);
    assert store - gone - DeletedKeys(inp) == store - DeletedKeys(inp);
    DeleteAllSucceeds(Api(store, []), inp.Deletes(order));
  }
}
