/** Installers whose releases may share a name, and with it their roles and bindings: what they add is kept
    all the same, because the API server refuses to replace a role that has changed since it was read. */
module Sharing {
  import opened Wrappers
  import opened Kube
  import opened Installer
  import opened Landing
  import opened RbacGen
  import opened Meaning
  import A = Authorization
  import opened Workers
  import opened Races

  ghost predicate OnlyApplies(w: Worker) {
    forall k :: 0 <= k < |w.program| ==> w.program[k].Apply?
  }

  /** Whoever writes a binding, it is the same one. */
  ghost predicate SameBinding(w: Worker, o: Object) {
    forall k :: 0 <= k < |w.program| && w.program[k].Apply? && w.program[k].o.key == o.key && o.key.HoldsBinding() ==>
                  w.program[k].o == o
  }

  ghost predicate Uniform(workers: seq<Worker>) {
    forall i, j, k :: 0 <= i < |workers| && 0 <= j < |workers| && 0 <= k < |workers[j].program| && workers[j].program[k].Apply? ==>
                        SameBinding(workers[i], workers[j].program[k].o)
  }

  /** What an apply is for: the rules of a role are there, and a binding is as it was written. */
  ghost predicate Holds(store: Store, o: Object) {
    && o.key in store
    && (o.key.HoldsRules() ==> forall rule :: rule in RulesOf(o.body) ==> rule in RulesOf(store[o.key]))
    && (o.key.HoldsBinding() ==> store[o.key] == o.body)
  }

  /** No role has lost a rule. */
  ghost predicate RulesKept(before: Store, now: Store) {
    forall key :: key in before && key.HoldsRules() ==> key in now && RulesOf(before[key]) <= RulesOf(now[key])
  }

  ghost predicate Effective(store: Store, w: Worker) {
    w.done <= |w.program| && forall k :: 0 <= k < w.done && w.program[k].Apply? ==> Holds(store, w.program[k].o)
  }

  /** What a write leaves under its key. */
  lemma SettledKeeps(o: Object, existing: Body)
    ensures o.key.HoldsRules() ==>
              && RulesOf(existing) <= RulesOf(Settled(o.key, existing, o.body))
              && forall rule :: rule in RulesOf(o.body) ==> rule in RulesOf(Settled(o.key, existing, o.body))
  {
    MergeKeepsAndAdds(RulesOf(existing), RulesOf(o.body));
    MergeNothingNew(RulesOf(existing), RulesOf(o.body));
  }

  lemma StepKeepsRules(store: Store, w: Worker, fault: Fault)
    requires OnlyApplies(w)
    ensures RulesKept(store, Step(store, w, fault).0)
    ensures forall key :: key in store ==> key in Step(store, w, fault).0
  {
    if !w.Idle() && w.seen.Some? && w.seen.value.Found? {
      SettledKeeps(w.program[w.done].o, w.seen.value.value);
    }
  }

  /** What is in place stays in place, whoever makes the next step. */
  lemma StepKeepsHolding(store: Store, w: Worker, fault: Fault, o: Object)
    requires OnlyApplies(w) && SameBinding(w, o) && Holds(store, o)
    ensures Holds(Step(store, w, fault).0, o)
  {
    StepKeepsRules(store, w, fault);
  }

  lemma StepTakesEffect(store: Store, w: Worker, fault: Fault)
    requires OnlyApplies(w) && Effective(store, w) && forall k :: 0 <= k < |w.program| ==> SameBinding(w, w.program[k].o)
    ensures Effective(Step(store, w, fault).0, Step(store, w, fault).1)
  {
    var (after, next) := Step(store, w, fault);
    StepKeepsProgram(store, w, fault);
    if !w.Idle() {
      var o := w.program[w.done].o;
      if o.key in store { SettledKeeps(o, store[o.key]); }
      if w.seen.Some? && w.seen.value.Found? { SettledKeeps(o, w.seen.value.value); }
    }
    forall k | 0 <= k < next.done && next.program[k].Apply?
      ensures Holds(after, next.program[k].o)
    {
      if k < w.done { StepKeepsHolding(store, w, fault, w.program[k].o); }
    }
  }

  /** In every state that installers can reach together. */
  ghost predicate Lasting(initial: System, s: System) {
    && SameWorkers(s.workers, initial.workers) && RulesKept(initial.store, s.store)
    && forall i :: 0 <= i < |s.workers| ==> OnlyApplies(s.workers[i]) && Effective(s.store, s.workers[i])
  }

  lemma MoveLasts(initial: System, s: System, t: Turn)
    requires Lasting(initial, s) && Uniform(s.workers)
    ensures Lasting(initial, Move(s, t)) && Uniform(Move(s, t).workers)
  {
    if t.worker < |s.workers| {
      var w, now := s.workers[t.worker], Move(s, t);
      StepKeepsProgram(s.store, w, t.fault);
      StepKeepsRules(s.store, w, t.fault);
      forall i | 0 <= i < |now.workers| ensures Effective(now.store, now.workers[i]) {
        if i == t.worker {
          StepTakesEffect(s.store, w, t.fault);
        } else {
          OthersKeepEffect(s, t.worker, t.fault, i);
        }
      }
    }
  }

  lemma OthersKeepEffect(s: System, i: nat, fault: Fault, j: nat)
    requires i < |s.workers| && j < |s.workers| && Uniform(s.workers)
    requires OnlyApplies(s.workers[i]) && Effective(s.store, s.workers[j])
    ensures Effective(Step(s.store, s.workers[i], fault).0, s.workers[j])
  {
    var other := s.workers[j];
    forall k | 0 <= k < other.done && other.program[k].Apply?
      ensures Holds(Step(s.store, s.workers[i], fault).0, other.program[k].o)
    {
      StepKeepsHolding(s.store, s.workers[i], fault, other.program[k].o);
    }
  }

  /** No rule is lost, of those there were and of those that any installer has added, in any interleaving,
      whatever fails and whatever names they share. */
  lemma {:induction false} NoRuleIsLost(s: System, schedule: seq<Turn>)
    requires Uniform(s.workers) && forall i :: 0 <= i < |s.workers| ==> OnlyApplies(s.workers[i]) && s.workers[i].done == 0
    ensures Lasting(s, Run(s, schedule)) && Uniform(Run(s, schedule).workers)
  {
    if schedule == [] {
    } else {
      NoRuleIsLost(s, schedule[..|schedule| - 1]);
      MoveLasts(s, Run(s, schedule[..|schedule| - 1]), schedule[|schedule| - 1]);
    }
  }

  // ------------------------------------------------------------ what it means

  lemma InstallationsAreUniform(store: Store, inputs: seq<Input>, orders: seq<seq<string>>)
    requires |inputs| == |orders| && forall i :: 0 <= i < |inputs| ==> inputs[i].Order(orders[i])
    requires forall i, j :: 0 <= i < |inputs| && 0 <= j < |inputs| && inputs[i].base == inputs[j].base ==> inputs[i].sa == inputs[j].sa
    ensures Uniform(Installations(store, inputs, orders).workers)
  {
    var workers := Installations(store, inputs, orders).workers;
    forall i, j, k | 0 <= i < |workers| && 0 <= j < |workers| && 0 <= k < |workers[j].program|
      ensures SameBinding(workers[i], workers[j].program[k].o)
    {
      InWrites(inputs[j], orders[j], inputs[j].Writes(orders[j])[k]);
      forall l | 0 <= l < |workers[i].program| && workers[i].program[l].o.key == workers[j].program[k].o.key
                 && workers[j].program[k].o.key.HoldsBinding()
        ensures workers[i].program[l].o == workers[j].program[k].o
      {
        InWrites(inputs[i], orders[i], inputs[i].Writes(orders[i])[l]);
      }
    }
  }

  lemma WrittenHolds(store: Store, inp: Input, order: seq<string>, w: Worker, o: Object)
    requires inp.Order(order) && w.program == ApplyProgram(inp.Writes(order)) && w.Finished() && Effective(store, w)
    requires o in inp.Writes(order)
    ensures Holds(store, o)
  {
    var k :| 0 <= k < |inp.Writes(order)| && inp.Writes(order)[k] == o;
    assert w.program[k] == Apply(o);
  }

  lemma EffectivePermits(store: Store, inp: Input, order: seq<string>, w: Worker, q: Request)
    requires inp.Order(order) && w.program == ApplyProgram(inp.Writes(order)) && w.Finished() && Effective(store, w)
    requires A.Covered(inp.resources, q)
    ensures Authorized(store, inp.sa, q)
  {
    var r :| r in inp.resources && A.Covers(r, q);
    InWrites(inp, order, inp.RoleIn(r.namespace));
    InWrites(inp, order, inp.BindingIn(r.namespace));
    WrittenHolds(store, inp, order, w, inp.RoleIn(r.namespace));
    WrittenHolds(store, inp, order, w, inp.BindingIn(r.namespace));
    RulesInHolds(inp.resources, r.namespace, ToRule(r));
    A.RuleMeaning(r, q);
    assert GrantedBy(store, Binder(inp.base, r.namespace), inp.sa, q);
  }

  /** An installer that has finished has what its list asks for permitted, whatever other installers, of
      other releases or of ones with the same name, have done before, between and after its calls. */
  lemma FinishedIsPermitted(store: Store, inputs: seq<Input>, orders: seq<seq<string>>, schedule: seq<Turn>, i: nat, q: Request)
    requires |inputs| == |orders| && forall i :: 0 <= i < |inputs| ==> inputs[i].Order(orders[i])
    requires forall i, j :: 0 <= i < |inputs| && 0 <= j < |inputs| && inputs[i].base == inputs[j].base ==> inputs[i].sa == inputs[j].sa
    requires i < |inputs| && A.Covered(inputs[i].resources, q)
    requires var now := Run(Installations(store, inputs, orders), schedule); i < |now.workers| && now.workers[i].Finished()
    ensures Authorized(Run(Installations(store, inputs, orders), schedule).store, inputs[i].sa, q)
  {
    var s := Installations(store, inputs, orders);
    var now := Run(s, schedule);
    InstallationsAreUniform(store, inputs, orders);
    NoRuleIsLost(s, schedule);
    EffectivePermits(now.store, inputs[i], orders[i], now.workers[i], q);
  }
}
