/** When workers that share a cluster get in each other's way, and what one worker alone amounts to. */
module Races {
  import opened Wrappers
  import opened Kube
  import P = Policy
  import opened Installer
  import opened Landing
  import opened RbacGen
  import opened Meaning
  import A = Authorization
  import opened Applicability
  import opened Workers

  // ------------------------------------------------------------ clashes

  predicate AllFine(schedule: seq<Turn>) {
    forall t :: t in schedule ==> t.fault == Fine
  }

  predicate NoneFailed(s: System) {
    forall w :: w in s.workers ==> !w.failed
  }

  predicate Brings(program: seq<Op>, key: Key) {
    exists op :: op in program && op.Target() == key
  }

  /** Two workers apply the same namespace, and it is not there yet. */
  ghost predicate ClashOver(s: System, i: nat, j: nat, key: Key) {
    && i < j < |s.workers| && key.kind.NamespaceKind? && key !in s.store
    && Brings(s.workers[i].program, key) && Brings(s.workers[j].program, key)
  }

  ghost predicate Clash(s: System) {
    exists i, j, key :: ClashOver(s, i, j, key)
  }

  /** The installer would succeed with this program if it were alone and every call were answered. */
  predicate SelfSufficient(store: Store, program: seq<Op>) {
    DoAll(Api(store, []), program).1
  }

  ghost predicate AllSelfSufficient(s: System) {
    forall w :: w in s.workers ==> SelfSufficient(s.store, w.program)
  }

  // ------------------------------------------------------------ nothing fails without a reason

  lemma {:induction false} EachIsAccepted(store: Store, program: seq<Op>, k: nat)
    requires SelfSufficient(store, program) && k < |program| && program[k].Apply?
    ensures var alone := Alone(store, program[..k]); Accepts(alone, program[k].o.key, Landed(alone, program[k].o))
  {
    var init := program[..|program| - 1];
    if k == |init| {
      DoAllIsAlone(Api(store, []), init);
      ApplyObjectLands(DoAll(Api(store, []), init).0, program[k].o);
    } else {
      assert init[..k] == program[..k];
      EachIsAccepted(store, init, k);
    }
  }

  /** The namespaces that the worker would see alone are there. */
  ghost predicate NamespacesThere(initial: Store, now: Store, w: Worker) {
    forall key: Key :: key.kind.NamespaceKind? && key in Alone(initial, w.Effects()) ==> key in now
  }

  /** Nobody has failed, and nobody is about to create a namespace that is there. */
  ghost predicate Unhindered(initial: Store, now: Store, w: Worker) {
    && !w.failed && w.seen != Some(Failed) && !Overtaken(now, w) && NamespacesThere(initial, now, w)
  }

  ghost predicate Smooth(initial: System, now: System) {
    && (forall key: Key :: key.kind.NamespaceKind? && key in initial.store ==> key in now.store)
    && (forall w :: w in now.workers ==> Unhindered(initial.store, now.store, w))
  }

  lemma NotRefused(initial: Store, now: Store, w: Worker)
    requires Undisturbed(initial, now, w) && Unhindered(initial, now, w) && SelfSufficient(initial, w.program)
    ensures !Refused(now, w)
  {
    if !w.Idle() && w.program[w.done].Apply? {
      assert w.program[w.done] in w.program;
      EachIsAccepted(initial, w.program, w.done);
    }
  }

  lemma StepNamespaces(initial: Store, now: Store, w: Worker)
    requires Undisturbed(initial, now, w) && NamespacesThere(initial, now, w)
    requires !Step(now, w, Fine).1.failed
    ensures NamespacesThere(initial, Step(now, w, Fine).0, Step(now, w, Fine).1)
    ensures forall key: Key :: key.kind.NamespaceKind? && key in now ==> key in Step(now, w, Fine).0
  {
    if !w.Idle() {
      assert w.program[w.done] in w.program;
      NextAlone(initial, w);
      assert Step(now, w, Fine).1.done == w.done ==> Step(now, w, Fine).1.Effects() == w.Effects();
    }
  }

  lemma StepUnhindered(initial: Store, now: Store, w: Worker)
    requires Undisturbed(initial, now, w) && Unhindered(initial, now, w) && SelfSufficient(initial, w.program)
    ensures Unhindered(initial, Step(now, w, Fine).0, Step(now, w, Fine).1)
    ensures forall key: Key :: key.kind.NamespaceKind? && key in now ==> key in Step(now, w, Fine).0
  {
    NotRefused(initial, now, w);
    AnsweredStepFails(initial, now, w);
    StepNamespaces(initial, now, w);
  }

  /** A step that adds a namespace does so because its program applies it. */
  lemma StepBrings(now: Store, w: Worker, fault: Fault, key: Key)
    requires key.kind.NamespaceKind? && key !in now && key in Step(now, w, fault).0
    ensures Brings(w.program, key)
  {
    assert w.program[w.done] in w.program;
  }

  lemma TwoBringersClash(s: System, i: nat, j: nat, key: Key)
    requires i < |s.workers| && j < |s.workers| && i != j && key.kind.NamespaceKind? && key !in s.store
    requires Brings(s.workers[i].program, key) && Brings(s.workers[j].program, key)
    ensures Clash(s)
  {
    if i < j {
      assert ClashOver(s, i, j, key);
    } else {
      assert ClashOver(s, j, i, key);
    }
  }

  lemma OthersUnhindered(initial: System, s: System, i: nat, j: nat, after: Store)
    requires Isolated(initial, s) && Smooth(initial, s) && !Clash(initial)
    requires i < |s.workers| && j < |s.workers| && i != j && after == Step(s.store, s.workers[i], Fine).0
    requires forall key: Key :: key.kind.NamespaceKind? && key in s.store ==> key in after
    ensures Unhindered(initial.store, after, s.workers[j])
  {
    var w, other := s.workers[i], s.workers[j];
    assert other in s.workers;
    if Overtaken(after, other) {
      var key := other.program[other.done].o.key;
      StepBrings(s.store, w, Fine, key);
      assert other.program[other.done] in other.program;
      TwoBringersClash(initial, i, j, key);
    }
  }

  lemma MoveSmooth(initial: System, s: System, t: Turn)
    requires Distinct(initial.workers) && Isolated(initial, s) && Smooth(initial, s)
    requires !Clash(initial) && AllSelfSufficient(initial) && t.fault == Fine
    ensures Smooth(initial, Move(s, t))
  {
    if t.worker < |s.workers| {
      var now := Move(s, t);
      assert s.workers[t.worker] in s.workers && initial.workers[t.worker] in initial.workers;
      StepUnhindered(initial.store, s.store, s.workers[t.worker]);
      forall j | 0 <= j < |now.workers| ensures Unhindered(initial.store, now.store, now.workers[j]) {
        if j != t.worker { OthersUnhindered(initial, s, t.worker, j, now.store); }
      }
    }
  }

  lemma StartsSmooth(s: System)
    requires Ready(s)
    ensures Smooth(s, s)
  {
    forall w | w in s.workers ensures Unhindered(s.store, s.store, w) {
      assert w.Effects() == [];
    }
  }

  lemma {:induction false} NoClashNoFailure(s: System, schedule: seq<Turn>)
    requires Ready(s) && !Clash(s) && AllSelfSufficient(s) && AllFine(schedule)
    ensures Smooth(s, Run(s, schedule)) && NoneFailed(Run(s, schedule))
  {
    if schedule == [] {
      StartsSmooth(s);
    } else {
      var init, t := schedule[..|schedule| - 1], schedule[|schedule| - 1];
      assert t in schedule && forall x :: x in init ==> x in schedule;
      NoClashNoFailure(s, init);
      Isolation(s, init);
      MoveSmooth(s, Run(s, init), t);
    }
  }

  // ------------------------------------------------------------ a clash can be provoked

  lemma {:induction false} RunConcat(s: System, xs: seq<Turn>, ys: seq<Turn>)
    ensures Run(s, xs + ys) == Run(Run(s, xs), ys)
  {
    if ys == [] {
      assert xs + ys == xs;
    } else {
      assert (xs + ys)[..|xs + ys| - 1] == xs + ys[..|ys| - 1];
      RunConcat(s, xs, ys[..|ys| - 1]);
    }
  }

  function At(w: Worker, n: nat): Worker { w.(done := n, seen := None) }

  ghost predicate Resting(s: System, i: nat) {
    i < |s.workers| && !s.workers[i].failed && s.workers[i].seen.None?
  }

  /** A worker that is left alone for as long as it takes completes its next operation, or fails. */
  lemma OneOperation(s: System, i: nat) returns (schedule: seq<Turn>)
    requires Resting(s, i) && s.workers[i].done < |s.workers[i].program|
    ensures AllFine(schedule)
    ensures var w := s.workers[i];
            || !NoneFailed(Run(s, schedule))
            || Run(s, schedule) == System(AloneStep(s.store, w.program[w.done]), s.workers[i := w.Proceed()])
  {
    var w, t := s.workers[i], Turn(i, Fine);
    var op := w.program[w.done];
    RunMore(s, [], t);
    assert [] + [t] == [t];
    var first := Move(s, t);
    if op.Apply? && first.workers[i].seen.Some? {
      RunMore(s, [t], t);
      assert first.workers[i := w.Proceed()] == s.workers[i := w.Proceed()];
      assert Move(first, t).workers[i] in Move(first, t).workers;
      schedule := [t] + [t];
    } else {
      if op.Apply? { assert s.store[op.o.key := Landed(s.store, op.o)] == s.store; }
      schedule := [t];
    }
  }

  lemma {:induction false} Operations(s: System, i: nat, n: nat, key: Key) returns (schedule: seq<Turn>)
    requires Resting(s, i) && s.workers[i].done <= n <= |s.workers[i].program| && Minds(s.workers[i])
    requires key.kind.NamespaceKind?
    requires forall k :: s.workers[i].done <= k < n ==> s.workers[i].program[k].Target() != key
    ensures AllFine(schedule)
    ensures || !NoneFailed(Run(s, schedule))
            || (Run(s, schedule).workers == s.workers[i := At(s.workers[i], n)] &&
                (key in Run(s, schedule).store <==> key in s.store))
    decreases n - s.workers[i].done
  {
    var w := s.workers[i];
    if w.done == n {
      assert s.workers[i := At(w, n)] == s.workers;
      schedule := [];
    } else {
      assert w.program[w.done] in w.program;
      var once := OneOperation(s, i);
      var next := Run(s, once);
      if !NoneFailed(next) { return once; }
      var more := Operations(next, i, n, key);
      RunConcat(s, once, more);
      assert next.workers[i := At(next.workers[i], n)] == s.workers[i := At(w, n)];
      schedule := once + more;
    }
  }

  lemma {:induction false} FirstAt(program: seq<Op>, key: Key) returns (n: nat)
    requires Brings(program, key)
    ensures n < |program| && program[n].Target() == key
    ensures forall k :: 0 <= k < n ==> program[k].Target() != key
  {
    if program[0].Target() == key {
      n := 0;
    } else {
      var op :| op in program && op.Target() == key;
      assert op in program[1..];
      var m := FirstAt(program[1..], key);
      assert program[1..][m] == program[m + 1];
      assert forall k :: 0 < k < m + 1 ==> program[k] == program[1..][k - 1];
      n := m + 1;
    }
  }

  /** About to create a namespace that was not there when the worker looked. */
  ghost predicate Poised(w: Worker, key: Key) {
    !w.failed && w.seen == Some(NotFound) && w.done < |w.program| && w.program[w.done].Apply? && w.program[w.done].o.key == key
  }

  lemma LookFirst(s: System, i: nat, key: Key) returns (schedule: seq<Turn>)
    requires Resting(s, i) && s.workers[i].done == 0 && Minds(s.workers[i]) && Brings(s.workers[i].program, key)
    requires key.kind.NamespaceKind? && key !in s.store
    ensures AllFine(schedule)
    ensures var after := Run(s, schedule);
            || !NoneFailed(after)
            || (key !in after.store && |after.workers| == |s.workers| && Poised(after.workers[i], key) &&
                forall j :: 0 <= j < |s.workers| && j != i ==> after.workers[j] == s.workers[j])
  {
    var n := FirstAt(s.workers[i].program, key);
    assert s.workers[i].program[n] in s.workers[i].program;
    var first := Operations(s, i, n, key);
    if !NoneFailed(Run(s, first)) { return first; }
    RunMore(s, first, Turn(i, Fine));
    schedule := first + [Turn(i, Fine)];
  }

  lemma CreateMeanwhile(s: System, j: nat, key: Key) returns (schedule: seq<Turn>)
    requires Resting(s, j) && s.workers[j].done == 0 && Minds(s.workers[j]) && Brings(s.workers[j].program, key)
    requires key.kind.NamespaceKind?
    ensures AllFine(schedule)
    ensures var after := Run(s, schedule);
            || !NoneFailed(after)
            || (key in after.store && |after.workers| == |s.workers| &&
                forall i :: 0 <= i < |s.workers| && j != i ==> after.workers[i] == s.workers[i])
  {
    var n := FirstAt(s.workers[j].program, key);
    assert s.workers[j].program[n] in s.workers[j].program;
    var first := Operations(s, j, n, key);
    if !NoneFailed(Run(s, first)) { return first; }
    var last := OneOperation(Run(s, first), j);
    RunConcat(s, first, last);
    schedule := first + last;
  }

  lemma FailNow(s: System, i: nat, key: Key)
    requires i < |s.workers| && Poised(s.workers[i], key) && key in s.store
    ensures !NoneFailed(Run(s, [Turn(i, Fine)]))
  {
    RunMore(s, [], Turn(i, Fine));
    assert [] + [Turn(i, Fine)] == [Turn(i, Fine)];
    assert Move(s, Turn(i, Fine)).workers[i] in Move(s, Turn(i, Fine)).workers;
  }

  /** The first worker looks, the second one looks and creates, the first one creates. */
  lemma ClashFails(s: System, i: nat, j: nat, key: Key) returns (schedule: seq<Turn>)
    requires Ready(s) && ClashOver(s, i, j, key)
    ensures AllFine(schedule) && !NoneFailed(Run(s, schedule))
  {
    assert s.workers[i] in s.workers && s.workers[j] in s.workers;
    var a := LookFirst(s, i, key);
    if !NoneFailed(Run(s, a)) { return a; }
    var b := CreateMeanwhile(Run(s, a), j, key);
    RunConcat(s, a, b);
    if !NoneFailed(Run(s, a + b)) { return a + b; }
    FailNow(Run(Run(s, a), b), i, key);
    RunConcat(s, a + b, [Turn(i, Fine)]);
    schedule := a + b + [Turn(i, Fine)];
  }

  // ------------------------------------------------------------ one worker is the installer

  lemma {:induction false} DoAllApplies(a: Api, objects: seq<Object>)
    ensures DoAll(a, ApplyProgram(objects)) == ApplyAll(a, objects)
  {
    if objects == [] {
    } else {
      assert ApplyProgram(objects)[..|objects| - 1] == ApplyProgram(objects[..|objects| - 1]);
      DoAllApplies(a, objects[..|objects| - 1]);
    }
  }

  lemma {:induction false} DoAllDeletes(a: Api, keys: seq<Key>)
    ensures DoAll(a, DeleteProgram(keys)) == DeleteAll(a, keys)
  {
    if keys == [] {
    } else {
      assert DeleteProgram(keys)[..|keys| - 1] == DeleteProgram(keys[..|keys| - 1]);
      DoAllDeletes(a, keys[..|keys| - 1]);
    }
  }

  function Turns(faults: seq<Fault>): seq<Turn> {
    seq(|faults|, i requires 0 <= i < |faults| => Turn(0, faults[i]))
  }

  function Lonely(store: Store, w: Worker): System { System(store, [w]) }

  lemma OneTurn(store: Store, w: Worker, faults: seq<Fault>)
    requires faults != []
    ensures var (store', w') := Step(store, w, faults[0]);
            Run(Lonely(store, w), Turns(faults)) == Run(Lonely(store', w'), Turns(faults[1..]))
  {
    var t := Turn(0, faults[0]);
    assert Turns(faults) == [t] + Turns(faults[1..]);
    RunConcat(Lonely(store, w), [t], Turns(faults[1..]));
    RunMore(Lonely(store, w), [], t);
    assert [] + [t] == [t];
    assert [w][0 := Step(store, w, faults[0]).1] == [Step(store, w, faults[0]).1];
  }

  lemma {:induction false} IdleTurns(store: Store, w: Worker, faults: seq<Fault>)
    requires w.Idle()
    ensures Run(Lonely(store, w), Turns(faults)) == Lonely(store, w)
  {
    if faults == [] {
    } else {
      OneTurn(store, w, faults);
      IdleTurns(store, w, faults[1..]);
    }
  }

  lemma {:induction false} DoAllFromTheLeft(a: Api, op: Op, rest: seq<Op>)
    ensures DoAll(a, [op] + rest) == (if Do(a, op).1 then DoAll(Do(a, op).0, rest) else Do(a, op))
  {
    if rest == [] {
      assert [op] + rest == [op] && [op][..0] == [];
    } else {
      assert ([op] + rest)[..|[op] + rest| - 1] == [op] + rest[..|rest| - 1];
      DoAllFromTheLeft(a, op, rest[..|rest| - 1]);
    }
  }

  /** One or two turns of a worker are the one or two calls of the installer. */
  lemma TurnsAreCalls(store: Store, w: Worker, faults: seq<Fault>)
    requires !w.Idle() && w.seen.None? && |faults| >= 2
    ensures var (a, ok), (store1, w1) := Do(Api(store, faults), w.program[w.done]), Step(store, w, faults[0]);
            if w1.seen.None? then
              a == Api(store1, faults[1..]) && (if ok then w1 == w.Proceed() else w1.failed)
            else
              var (store2, w2) := Step(store1, w1, faults[1]);
              a == Api(store2, faults[2..]) && (if ok then w2 == w.Proceed() else w2.failed)
  {
    assert Tail(faults) == faults[1..] && Tail(faults[1..]) == faults[2..];
  }

  /** One operation: the worker's turns meet the faults that the installer's calls meet. */
  lemma OneOperationUnderFaults(store: Store, w: Worker, faults: seq<Fault>) returns (after: Worker)
    requires !w.Idle() && w.seen.None? && |faults| >= 2
    ensures var (a, ok) := Do(Api(store, faults), w.program[w.done]);
            && |a.faults| >= |faults| - 2 && (if ok then after == w.Proceed() else after.failed)
            && Run(Lonely(store, w), Turns(faults)) == Run(Lonely(a.store, after), Turns(a.faults))
  {
    TurnsAreCalls(store, w, faults);
    OneTurn(store, w, faults);
    var (store1, w1) := Step(store, w, faults[0]);
    if w1.seen.Some? {
      OneTurn(store1, w1, faults[1..]);
      assert faults[1..][1..] == faults[2..];
      after := Step(store1, w1, faults[1]).1;
    } else {
      after := w1;
    }
  }

  lemma {:induction false} RestOfAProgram(store: Store, w: Worker, faults: seq<Fault>)
    requires !w.failed && w.seen.None? && w.done <= |w.program| && |faults| >= 2 * (|w.program| - w.done)
    ensures var (a, ok), now := DoAll(Api(store, faults), w.program[w.done..]), Run(Lonely(store, w), Turns(faults));
            && now.store == a.store && |now.workers| == 1 && (now.workers[0].Finished() <==> ok)
            && (now.workers[0].failed <==> !ok)
    decreases |w.program| - w.done
  {
    if w.done == |w.program| {
      IdleTurns(store, w, faults);
    } else {
      var op, rest := w.program[w.done], w.program[w.done + 1..];
      assert w.program[w.done..] == [op] + rest;
      DoAllFromTheLeft(Api(store, faults), op, rest);
      var after := OneOperationUnderFaults(store, w, faults);
      var (a, ok) := Do(Api(store, faults), op);
      if ok {
        RestOfAProgram(a.store, after, a.faults);
      } else {
        IdleTurns(a.store, after, a.faults);
      }
    }
  }

  /** A worker on its own, meeting whatever faults, does what the installer does: the same store, and
      success where the installer reports success. */
  lemma OneWorkerIsTheInstaller(base: string, store: Store, objects: seq<Object>, keys: seq<Key>, faults: seq<Fault>)
    requires |faults| >= 2 * |objects| && |faults| >= 2 * |keys|
    ensures var applying := Run(Lonely(store, Worker(base, ApplyProgram(objects), 0, None, false)), Turns(faults));
            var (a, ok) := ApplyAll(Api(store, faults), objects);
            applying.store == a.store && |applying.workers| == 1 && (applying.workers[0].Finished() <==> ok)
    ensures var deleting := Run(Lonely(store, Worker(base, DeleteProgram(keys), 0, None, false)), Turns(faults));
            var (a, ok) := DeleteAll(Api(store, faults), keys);
            deleting.store == a.store && |deleting.workers| == 1 && (deleting.workers[0].Finished() <==> ok)
  {
    RestOfAProgram(store, Worker(base, ApplyProgram(objects), 0, None, false), faults);
    assert ApplyProgram(objects)[0..] == ApplyProgram(objects);
    DoAllApplies(Api(store, faults), objects);
    RestOfAProgram(store, Worker(base, DeleteProgram(keys), 0, None, false), faults);
    assert DeleteProgram(keys)[0..] == DeleteProgram(keys);
    DoAllDeletes(Api(store, faults), keys);
  }

  // ------------------------------------------------------------ the exact condition

  function TurnsOf(i: nat, faults: seq<Fault>): seq<Turn> {
    seq(|faults|, k requires 0 <= k < |faults| => Turn(i, faults[k]))
  }

  /** In company, a worker that has all the turns does what it does on its own. */
  lemma {:induction false} AllTheTurns(s: System, i: nat, faults: seq<Fault>)
    requires i < |s.workers|
    ensures var own := Run(Lonely(s.store, s.workers[i]), Turns(faults));
            |own.workers| == 1 && Run(s, TurnsOf(i, faults)) == System(own.store, s.workers[i := own.workers[0]])
  {
    if faults == [] {
      assert s.workers[i := s.workers[i]] == s.workers;
    } else {
      var init, f := faults[..|faults| - 1], faults[|faults| - 1];
      AllTheTurns(s, i, init);
      assert Turns(faults) == Turns(init) + [Turn(0, f)] && TurnsOf(i, faults) == TurnsOf(i, init) + [Turn(i, f)];
      RunMore(Lonely(s.store, s.workers[i]), Turns(init), Turn(0, f));
      RunMore(s, TurnsOf(i, init), Turn(i, f));
      var own := Run(Lonely(s.store, s.workers[i]), Turns(init));
      var w := Step(own.store, own.workers[0], f).1;
      assert own.workers[0 := w] == [w];
      assert s.workers[i := own.workers[0]][i := w] == s.workers[i := w];
    }
  }

  ghost predicate Harmless(faults: seq<Fault>) {
    forall k :: 0 <= k < |faults| ==> faults[k] == Fine
  }

  lemma HarmlessTail(faults: seq<Fault>)
    requires Harmless(faults)
    ensures Head(faults) == Fine && Harmless(Tail(faults))
  {
  }

  lemma HarmlessCall(a: Api, op: Op)
    requires Harmless(a.faults)
    ensures var (b, ok), (c, done) := Do(a, op), Do(Api(a.store, []), op);
            b.store == c.store && ok == done && Harmless(b.faults) && c.faults == []
  {
    HarmlessTail(a.faults);
    HarmlessTail(Tail(a.faults));
  }

  /** Faults that are not faults make no difference. */
  lemma {:induction false} FineOrNone(a: Api, program: seq<Op>)
    requires Harmless(a.faults)
    ensures DoAll(a, program).1 <==> DoAll(Api(a.store, []), program).1
    ensures DoAll(a, program).0.store == DoAll(Api(a.store, []), program).0.store
    ensures DoAll(Api(a.store, []), program).0.faults == []
    ensures Harmless(DoAll(a, program).0.faults)
  {
    if program == [] {
    } else {
      FineOrNone(a, program[..|program| - 1]);
      HarmlessCall(DoAll(a, program[..|program| - 1]).0, program[|program| - 1]);
    }
  }

  /** A worker performs its whole program while the others wait: it fails if its program is not sufficient
      for the store it meets, and leaves what the installer leaves. */
  lemma WholeProgram(s: System, i: nat) returns (schedule: seq<Turn>)
    requires Resting(s, i) && s.workers[i].done == 0
    ensures AllFine(schedule)
    ensures var (a, ok), now := DoAll(Api(s.store, []), s.workers[i].program), Run(s, schedule);
            && a == Api(now.store, []) && |now.workers| == |s.workers| && (now.workers[i].failed <==> !ok)
            && forall j :: 0 <= j < |s.workers| && j != i ==> now.workers[j] == s.workers[j]
  {
    var w := s.workers[i];
    assert w.program[0..] == w.program;
    var faults := seq(2 * |w.program|, _ => Fine);
    RestOfAProgram(s.store, w, faults);
    FineOrNone(Api(s.store, faults), w.program);
    AllTheTurns(s, i, faults);
    schedule := TurnsOf(i, faults);
  }

  lemma InsufficientFails(s: System, i: nat) returns (schedule: seq<Turn>)
    requires Ready(s) && i < |s.workers| && !SelfSufficient(s.store, s.workers[i].program)
    ensures AllFine(schedule) && !NoneFailed(Run(s, schedule))
  {
    assert s.workers[i] in s.workers;
    schedule := WholeProgram(s, i);
    assert Run(s, schedule).workers[i] in Run(s, schedule).workers;
  }

  /** As long as every call is answered, whether some interleaving can make a worker fail can be seen
      before any of them starts: whether two of them bring the same missing namespace, or one of them
      would fail on its own. */
  lemma FailuresAreClashes(s: System)
    requires Ready(s)
    ensures (forall schedule :: AllFine(schedule) ==> NoneFailed(Run(s, schedule))) <==> !Clash(s) && AllSelfSufficient(s)
  {
    if Clash(s) {
      var i: nat, j: nat, key :| ClashOver(s, i, j, key);
      var schedule := ClashFails(s, i, j, key);
      assert AllFine(schedule) && !NoneFailed(Run(s, schedule));
    } else if !AllSelfSufficient(s) {
      var i :| 0 <= i < |s.workers| && !SelfSufficient(s.store, s.workers[i].program);
      var schedule := InsufficientFails(s, i);
      assert AllFine(schedule) && !NoneFailed(Run(s, schedule));
    } else {
      forall schedule | AllFine(schedule) ensures NoneFailed(Run(s, schedule)) {
        NoClashNoFailure(s, schedule);
      }
    }
  }

  // ------------------------------------------------------------ any order

  lemma OneByOneLast(a: Api, workers: seq<Worker>, turns: seq<nat>)
    requires turns != [] && forall k :: 0 <= k < |turns| ==> turns[k] < |workers|
    ensures var (a1, ok) := OneByOne(a, ProgramsOf(workers, turns[..|turns| - 1]));
            ok ==> OneByOne(a, ProgramsOf(workers, turns)) == DoAll(a1, workers[turns[|turns| - 1]].program)
  {
    assert ProgramsOf(workers, turns)[..|turns| - 1] == ProgramsOf(workers, turns[..|turns| - 1]);
  }

  /** Where nothing can go wrong, the programs also succeed one after another, in whichever order. */
  lemma {:induction false} InAnyOrder(s: System, turns: seq<nat>) returns (schedule: seq<Turn>)
    requires Ready(s) && !Clash(s) && AllSelfSufficient(s)
    requires forall k :: 0 <= k < |turns| ==> turns[k] < |s.workers|
    requires forall j, k :: 0 <= j < k < |turns| ==> turns[j] != turns[k]
    ensures AllFine(schedule)
    ensures var (a, ok), now := OneByOne(Api(s.store, []), ProgramsOf(s.workers, turns)), Run(s, schedule);
            && ok && a == Api(now.store, []) && |now.workers| == |s.workers|
            && forall j :: 0 <= j < |s.workers| && j !in turns ==> now.workers[j] == s.workers[j]
  {
    if turns == [] {
      schedule := [];
    } else {
      var init, i := turns[..|turns| - 1], turns[|turns| - 1];
      assert turns == init + [i] && i == turns[|init|] && s.workers[i] in s.workers;
      var first := InAnyOrder(s, init);
      var now := Run(s, first);
      var next := WholeProgram(now, i);
      RunConcat(s, first, next);
      schedule := first + next;
      NoClashNoFailure(s, schedule);
      assert Run(s, schedule).workers[i] in Run(s, schedule).workers;
      OneByOneLast(Api(s.store, []), s.workers, turns);
    }
  }

  /** There, every interleaving that finishes leaves the roles and bindings of any sequence. */
  lemma SerializableInAnyOrder(s: System, schedule: seq<Turn>, turns: seq<nat>, key: Key)
    requires Ready(s) && !Clash(s) && AllSelfSufficient(s)
    requires forall w :: w in Run(s, schedule).workers ==> w.Finished()
    requires forall k :: 0 <= k < |turns| ==> turns[k] < |s.workers|
    requires forall i :: 0 <= i < |s.workers| ==> i in turns
    requires forall j, k :: 0 <= j < k < |turns| ==> turns[j] != turns[k]
    requires key.kind != NamespaceKind
    ensures OneByOne(Api(s.store, []), ProgramsOf(s.workers, turns)).1
    ensures Agree(Run(s, schedule).store, OneByOne(Api(s.store, []), ProgramsOf(s.workers, turns)).0.store, key)
  {
    var sequence := InAnyOrder(s, turns);
    Serializable(s, schedule, turns, key);
  }

  // ------------------------------------------------------------ installations

  /** A worker about to apply the policy of a release. */
  function Installing(inp: Input, order: seq<string>): Worker {
    Worker(inp.base, ApplyProgram(inp.Writes(order)), 0, None, false)
  }

  /** What a policy brings are the namespaces of its list. */
  lemma ListedNamespacesAreBrought(inp: Input, order: seq<string>, key: Key)
    requires inp.Order(order) && key.kind.NamespaceKind?
    ensures Brings(ApplyProgram(inp.Writes(order)), key) <==> key.namespace == "" && A.Brings(inp, key.name)
  {
    if op :| op in ApplyProgram(inp.Writes(order)) && op.Target() == key {
      InWrites(inp, order, op.o);
    }
    if key.namespace == "" && A.Brings(inp, key.name) {
      var r :| r in inp.resources && IsNamespace(r) && r.name == key.name;
      var o := P.CreateNamespace(r.name, inp.base, inp.namespace);
      A.NamespaceWritesAre(inp, o);
      var k :| 0 <= k < |inp.NamespaceWrites()| && inp.NamespaceWrites()[k] == o;
      assert inp.Writes(order)[k] == o;
      assert ApplyProgram(inp.Writes(order))[k] == Apply(o) && Apply(o).Target() == key;
    }
  }

  lemma InstallingIsSelfSufficient(inp: Input, order: seq<string>, store: Store)
    requires inp.Order(order)
    ensures SelfSufficient(store, Installing(inp, order).program) <==> Applicable(inp, store)
  {
    DoAllApplies(Api(store, []), inp.Writes(order));
    ApplySucceedsIff(inp, Api(store, []), order);
  }

  function Installations(store: Store, inputs: seq<Input>, orders: seq<seq<string>>): System
    requires |inputs| == |orders|
  {
    System(store, seq(|inputs|, i requires 0 <= i < |inputs| => Installing(inputs[i], orders[i])))
  }

  ghost predicate Shared(store: Store, inputs: seq<Input>, i: nat, j: nat, ns: string) {
    i < j < |inputs| && A.Brings(inputs[i], ns) && A.Brings(inputs[j], ns) && Key(NamespaceKind, "", ns) !in store
  }

  lemma ClashesAreShared(store: Store, inputs: seq<Input>, orders: seq<seq<string>>)
    requires |inputs| == |orders| && forall i :: 0 <= i < |inputs| ==> inputs[i].Order(orders[i])
    ensures Clash(Installations(store, inputs, orders)) <==> exists i, j, ns :: Shared(store, inputs, i, j, ns)
  {
    var s := Installations(store, inputs, orders);
    if Clash(s) {
      var i: nat, j: nat, key :| ClashOver(s, i, j, key);
      ListedNamespacesAreBrought(inputs[i], orders[i], key);
      ListedNamespacesAreBrought(inputs[j], orders[j], key);
      assert Shared(store, inputs, i, j, key.name);
    }
    if i: nat, j: nat, ns :| Shared(store, inputs, i, j, ns) {
      var key := Key(NamespaceKind, "", ns);
      ListedNamespacesAreBrought(inputs[i], orders[i], key);
      ListedNamespacesAreBrought(inputs[j], orders[j], key);
      assert ClashOver(s, i, j, key);
    }
  }

  lemma InstallationsAreReady(store: Store, inputs: seq<Input>, orders: seq<seq<string>>)
    requires |inputs| == |orders| && forall i :: 0 <= i < |inputs| ==> inputs[i].Order(orders[i])
    requires forall i, j :: 0 <= i < j < |inputs| ==> inputs[i].base != inputs[j].base
    ensures Ready(Installations(store, inputs, orders))
  {
    forall i | 0 <= i < |inputs| ensures Minds(Installing(inputs[i], orders[i])) {
      InstallerMinds(inputs[i], orders[i]);
    }
  }

  lemma SufficientInstallations(store: Store, inputs: seq<Input>, orders: seq<seq<string>>)
    requires |inputs| == |orders| && forall i :: 0 <= i < |inputs| ==> inputs[i].Order(orders[i])
    ensures AllSelfSufficient(Installations(store, inputs, orders)) <==>
            forall i :: 0 <= i < |inputs| ==> Applicable(inputs[i], store)
  {
    var s := Installations(store, inputs, orders);
    forall i | 0 <= i < |inputs|
      ensures s.workers[i] in s.workers && (SelfSufficient(store, s.workers[i].program) <==> Applicable(inputs[i], store))
    {
      InstallingIsSelfSufficient(inputs[i], orders[i], store);
    }
  }

  /** Installations of different releases into one cluster, every call answered: nothing can go wrong, in
      any interleaving, if and only if each policy is applicable and no two lists share a namespace that
      is missing. */
  lemma InstallationsNeverFail(store: Store, inputs: seq<Input>, orders: seq<seq<string>>)
    requires |inputs| == |orders| && forall i :: 0 <= i < |inputs| ==> inputs[i].Order(orders[i])
    requires forall i, j :: 0 <= i < j < |inputs| ==> inputs[i].base != inputs[j].base
    ensures (forall schedule :: AllFine(schedule) ==> NoneFailed(Run(Installations(store, inputs, orders), schedule))) <==>
            && (forall i :: 0 <= i < |inputs| ==> Applicable(inputs[i], store))
            && !exists i, j, ns :: Shared(store, inputs, i, j, ns)
  {
    InstallationsAreReady(store, inputs, orders);
    SufficientInstallations(store, inputs, orders);
    ClashesAreShared(store, inputs, orders);
    FailuresAreClashes(Installations(store, inputs, orders));
  }

  /** Two releases whose charts list the same missing namespace do get in each other's way. */
  lemma NamespaceRace(a: Input, b: Input, orderA: seq<string>, orderB: seq<string>, ns: string, store: Store)
    returns (schedule: seq<Turn>)
    requires a.base != b.base && a.Order(orderA) && b.Order(orderB)
    requires A.Brings(a, ns) && A.Brings(b, ns) && Key(NamespaceKind, "", ns) !in store
    ensures AllFine(schedule)
    ensures !NoneFailed(Run(System(store, [Installing(a, orderA), Installing(b, orderB)]), schedule))
  {
    var s, key := System(store, [Installing(a, orderA), Installing(b, orderB)]), Key(NamespaceKind, "", ns);
    InstallerMinds(a, orderA);
    InstallerMinds(b, orderB);
    ListedNamespacesAreBrought(a, orderA, key);
    ListedNamespacesAreBrought(b, orderB, key);
    assert ClashOver(s, 0, 1, key);
    schedule := ClashFails(s, 0, 1, key);
  }

  /** One release alone, with a role in a namespace that nobody has made, fails on its own. */
  lemma MissingNamespace(inp: Input, order: seq<string>, r: Resource, store: Store)
    requires inp.Order(order) && r in inp.resources && r.namespace != "" && !A.Brings(inp, r.namespace)
    requires Key(NamespaceKind, "", r.namespace) !in store && Key(RoleKind, r.namespace, inp.base) !in store
    ensures !ApplyAll(Api(store, []), inp.Writes(order)).1
  {
    ApplySucceedsIff(inp, Api(store, []), order);
    assert r.namespace in inp.Scopes() && !NamespaceReady(inp, store, r.namespace);
  }
}
