/** Several workers share one cluster. Each works through the applies and uninstalls of its own
    release, one API call at a time, and the calls of different workers interleave in any way. */
module Workers {
  import opened Wrappers
  import opened Kube
  import opened Installer
  import opened Landing
  import opened Meaning

  datatype Op = Apply(o: Object) | Delete(key: Key) {
    function Target(): Key { if Apply? then o.key else key }
  }

  /** done counts the operations of the program that have taken effect; seen is the answer to the get
      that opens the operation in progress. */
  datatype Worker = Worker(base: string, program: seq<Op>, done: nat, seen: Option<Reply<Body>>, failed: bool) {
    predicate Idle() { failed || done >= |program| }
    predicate Finished() { !failed && done == |program| }
    function Effects(): seq<Op> { if done <= |program| then program[..done] else program }
    function Proceed(): Worker { this.(done := done + 1, seen := None) }
    function Fail(): Worker { this.(failed := true, seen := None) }
  }

  /** The answer to a write: it may land, and the worker may learn of it or not. */
  function Written(store: Store, after: Store, w: Worker, fault: Fault): (Store, Worker) {
    match fault
    case Fine => (after, w.Proceed())
    case Unacked => (after, w.Proceed().Fail())
    case _ => (store, w.Fail())
  }

  /** One API call of one worker. */
  function Step(store: Store, w: Worker, fault: Fault): (Store, Worker) {
    if w.Idle() then (store, w)
    else match w.program[w.done]
      case Delete(key) => Written(store, store - {key}, w, fault)
      case Apply(o) =>
        match w.seen
        case None =>
          if fault != Fine then (store, w.Fail())
          else if o.key in store && o.key.HoldsRules() && Settled(o.key, store[o.key], o.body) == store[o.key]
          then (store, w.Proceed())                             // nothing to write
          else (store, w.(seen := Some(if o.key in store then Found(store[o.key]) else NotFound)))
        case Some(NotFound) =>
          if o.key in store || !Accepts(store, o.key, o.body) then (store, w.Fail())
          else Written(store, store[o.key := o.body], w, fault)
        case Some(Found(existing)) =>
          if o.key !in store || !Accepts(store, o.key, Settled(o.key, existing, o.body)) then (store, w.Fail())
          else if o.key.HoldsRules() && store[o.key] != existing then (store, w.Fail())  // Conflict
          else Written(store, store[o.key := Settled(o.key, existing, o.body)], w, fault)
        case Some(Failed) => (store, w.Fail())
  }

  datatype System = System(store: Store, workers: seq<Worker>)

  datatype Turn = Turn(worker: nat, fault: Fault)

  function Move(s: System, t: Turn): System {
    if t.worker >= |s.workers| then s
    else
      var (store, w) := Step(s.store, s.workers[t.worker], t.fault);
      System(store, s.workers[t.worker := w])
  }

  function Run(s: System, schedule: seq<Turn>): System {
    if schedule == [] then s else Move(Run(s, schedule[..|schedule| - 1]), schedule[|schedule| - 1])
  }

  /** A program all on its own. */
  function Alone(store: Store, program: seq<Op>): Store {
    if program == [] then store
    else
      AloneStep(Alone(store, program[..|program| - 1]), program[|program| - 1])
  }

  predicate Agree(a: Store, b: Store, key: Key) {
    (key in a <==> key in b) && (key in a ==> a[key] == b[key])
  }

  predicate IsNamespaceObject(o: Object) {
    o.key.kind.NamespaceKind? && o.key.namespace == "" && o.body.Namespace?
  }

  /** A worker only handles objects of its own release, and namespaces, which it never deletes. */
  ghost predicate Minds(w: Worker) {
    forall op :: op in w.program ==> Own(op.Target(), w.base) || (op.Apply? && IsNamespaceObject(op.o))
  }

  ghost predicate Ready(s: System) {
    && (forall w :: w in s.workers ==> Minds(w) && w.done == 0 && w.seen.None? && !w.failed)
    && Distinct(s.workers)
  }

  /** What holds of every worker at every moment: as far as its own release is concerned, the cluster
      looks as if the worker had been alone, and what it has seen is still so. */
  ghost predicate Undisturbed(initial: Store, now: Store, w: Worker) {
    && Minds(w)
    && w.done <= |w.program|
    && (forall key :: Own(key, w.base) ==> Agree(now, Alone(initial, w.Effects()), key))
    && (w.seen.Some? ==>
          && w.done < |w.program| && w.program[w.done].Apply?
          && var key := w.program[w.done].Target();
            && (w.seen.value.Found? ==> key in now)
            && (Own(key, w.base) ==> w.seen.value == if key in now then Found(now[key]) else NotFound))
  }

  function AloneStep(before: Store, op: Op): Store {
    match op
    case Apply(o) => before[o.key := Landed(before, o)]
    case Delete(key) => before - {key}
  }

  lemma NextAlone(initial: Store, w: Worker)
    requires w.done < |w.program|
    ensures Alone(initial, w.Proceed().Effects()) == AloneStep(Alone(initial, w.Effects()), w.program[w.done])
  {
    assert w.program[..w.done + 1][..w.done] == w.program[..w.done];
  }

  /** Where two stores agree on the release's objects, they still do after one has been changed as
      the installer changes it and the other as if nobody else were there. */
  lemma LandAlike(now: Store, alone: Store, o: Object, landed: Body, base: string)
    requires forall key :: Own(key, base) ==> Agree(now, alone, key)
    requires Own(o.key, base) ==> landed == Landed(now, o)
    ensures forall key :: Own(key, base) ==> Agree(now[o.key := landed], alone[o.key := Landed(alone, o)], key)
  {
  }

  /** An operation that takes effect, acknowledged or not, has done what it would do alone. */
  lemma EffectOwn(initial: Store, now: Store, after: Store, w: Worker)
    requires Undisturbed(initial, now, w) && w.done < |w.program|
    requires forall key :: Own(key, w.base) ==>
               Agree(after, AloneStep(Alone(initial, w.Effects()), w.program[w.done]), key)
    ensures Undisturbed(initial, after, w.Proceed()) && Undisturbed(initial, after, w.Proceed().Fail())
  {
    NextAlone(initial, w);
    assert w.Proceed().Fail().Effects() == w.Proceed().Effects();
  }

  lemma FailOwn(initial: Store, now: Store, w: Worker)
    requires Undisturbed(initial, now, w)
    ensures Undisturbed(initial, now, w.Fail())
  {
    assert w.Fail().Effects() == w.Effects();
  }

  lemma StepDelete(initial: Store, now: Store, w: Worker, fault: Fault)
    requires Undisturbed(initial, now, w) && !w.Idle() && w.program[w.done].Delete?
    ensures Undisturbed(initial, Step(now, w, fault).0, Step(now, w, fault).1)
  {
    FailOwn(initial, now, w);
    EffectOwn(initial, now, now - {w.program[w.done].key}, w);
  }

  lemma StepGet(initial: Store, now: Store, w: Worker, fault: Fault)
    requires Undisturbed(initial, now, w) && !w.Idle() && w.program[w.done].Apply? && w.seen.None?
    ensures Undisturbed(initial, Step(now, w, fault).0, Step(now, w, fault).1)
  {
    var o := w.program[w.done].o;
    assert w.program[w.done] in w.program;
    FailOwn(initial, now, w);
    if o.key in now && o.key.HoldsRules() && Settled(o.key, now[o.key], o.body) == now[o.key] {
      EffectOwn(initial, now, now, w);
    } else {
      assert w.(seen := Some(if o.key in now then Found(now[o.key]) else NotFound)).Effects() == w.Effects();
    }
  }

  lemma StepWrite(initial: Store, now: Store, w: Worker, fault: Fault)
    requires Undisturbed(initial, now, w) && !w.Idle() && w.program[w.done].Apply? && w.seen.Some?
    ensures Undisturbed(initial, Step(now, w, fault).0, Step(now, w, fault).1)
  {
    var o := w.program[w.done].o;
    var alone := Alone(initial, w.Effects());
    FailOwn(initial, now, w);
    var landed := if w.seen.value.Found? then Settled(o.key, w.seen.value.value, o.body) else o.body;
    if w.seen.value.Failed? || (w.seen.value.NotFound? <==> o.key in now) { return; }
    LandAlike(now, alone, o, landed, w.base);
    EffectOwn(initial, now, now[o.key := landed], w);
  }

  lemma StepOwn(initial: Store, now: Store, w: Worker, fault: Fault)
    requires Undisturbed(initial, now, w)
    ensures Undisturbed(initial, Step(now, w, fault).0, Step(now, w, fault).1)
  {
    if w.Idle() {
    } else if w.program[w.done].Delete? {
      StepDelete(initial, now, w, fault);
    } else if w.seen.None? {
      StepGet(initial, now, w, fault);
    } else {
      StepWrite(initial, now, w, fault);
    }
  }

  lemma StepForeign(initial: Store, now: Store, w: Worker, fault: Fault, other: Worker)
    requires Undisturbed(initial, now, other) && Minds(w) && w.base != other.base
    ensures Undisturbed(initial, Step(now, w, fault).0, other)
  {
    if !w.Idle() {
      assert w.program[w.done] in w.program;
    }
  }

  lemma StepElsewhere(now: Store, w: Worker, fault: Fault, key: Key)
    requires Minds(w) && key.kind != NamespaceKind && key.name != w.base
    ensures Agree(Step(now, w, fault).0, now, key)
  {
  }

  ghost predicate SameWorkers(a: seq<Worker>, b: seq<Worker>) {
    |a| == |b| && forall i :: 0 <= i < |a| ==> a[i].base == b[i].base && a[i].program == b[i].program
  }

  /** An RBAC object of none of the releases at work. */
  ghost predicate Foreign(key: Key, workers: seq<Worker>) {
    key.kind != NamespaceKind && forall i :: 0 <= i < |workers| ==> key.name != workers[i].base
  }

  ghost predicate Isolated(initial: System, now: System) {
    && SameWorkers(now.workers, initial.workers)
    && (forall i :: 0 <= i < |now.workers| ==> Undisturbed(initial.store, now.store, now.workers[i]))
    && (forall key :: Foreign(key, initial.workers) ==> Agree(now.store, initial.store, key))
  }

  ghost predicate Distinct(workers: seq<Worker>) {
    forall i, j :: 0 <= i < j < |workers| ==> workers[i].base != workers[j].base
  }

  lemma MoveIsolated(initial: System, s: System, t: Turn)
    requires Distinct(initial.workers) && Isolated(initial, s)
    ensures Isolated(initial, Move(s, t))
  {
    if t.worker < |s.workers| {
      var w, now := s.workers[t.worker], Move(s, t);
      StepOwn(initial.store, s.store, w, t.fault);
      StepKeepsProgram(s.store, w, t.fault);
      forall i | 0 <= i < |now.workers|
        ensures Undisturbed(initial.store, now.store, now.workers[i])
      {
        if i != t.worker {
          assert w.base != s.workers[i].base;
          StepForeign(initial.store, s.store, w, t.fault, s.workers[i]);
        }
      }
      forall key | Foreign(key, initial.workers)
        ensures Agree(now.store, initial.store, key)
      {
        StepElsewhere(s.store, w, t.fault, key);
      }
    }
  }

  lemma StepKeepsProgram(now: Store, w: Worker, fault: Fault)
    ensures Step(now, w, fault).1.base == w.base && Step(now, w, fault).1.program == w.program
  {
  }

  /** Isolation: whatever the schedule and whatever fails, no worker ever sees another one's doings in
      the objects of its own release, and objects of no worker's release are left alone. */
  lemma {:induction false} Isolation(s: System, schedule: seq<Turn>)
    requires Ready(s)
    ensures Isolated(s, Run(s, schedule))
  {
    if schedule == [] {
      forall i | 0 <= i < |s.workers| ensures Undisturbed(s.store, s.store, s.workers[i]) {
        assert s.workers[i] in s.workers;
        assert s.workers[i].Effects() == [];
      }
    } else {
      Isolation(s, schedule[..|schedule| - 1]);
      MoveIsolated(s, Run(s, schedule[..|schedule| - 1]), schedule[|schedule| - 1]);
    }
  }

  // ------------------------------------------------------------ one after another

  /** An operation as the installer performs it, and a whole program. */
  function Do(a: Api, op: Op): (Api, bool) {
    match op
    case Apply(o) => ApplyObject(a, o)
    case Delete(key) => DeleteCall(a, key)
  }

  function DoAll(a: Api, program: seq<Op>): (Api, bool) {
    if program == [] then (a, true)
    else
      var (a1, ok) := DoAll(a, program[..|program| - 1]);
      if ok then Do(a1, program[|program| - 1]) else (a1, false)
  }

  /** The programs, each performed to its end before the next one starts, as long as they succeed. */
  function OneByOne(a: Api, programs: seq<seq<Op>>): (Api, bool) {
    if programs == [] then (a, true)
    else
      var (a1, ok) := OneByOne(a, programs[..|programs| - 1]);
      if ok then DoAll(a1, programs[|programs| - 1]) else (a1, false)
  }

  /** The same, seen from the effects. */
  function InTurn(store: Store, programs: seq<seq<Op>>): Store {
    if programs == [] then store
    else Alone(InTurn(store, programs[..|programs| - 1]), programs[|programs| - 1])
  }

  lemma {:induction false} DoAllIsAlone(a: Api, program: seq<Op>)
    requires a.faults == [] && DoAll(a, program).1
    ensures DoAll(a, program).0 == Api(Alone(a.store, program), [])
  {
    if program == [] {
    } else {
      var init, op := program[..|program| - 1], program[|program| - 1];
      DoAllIsAlone(a, init);
      if op.Apply? { ApplyObjectLands(DoAll(a, init).0, op.o); }
    }
  }

  lemma {:induction false} OneByOneIsInTurn(a: Api, programs: seq<seq<Op>>)
    requires a.faults == [] && OneByOne(a, programs).1
    ensures OneByOne(a, programs).0 == Api(InTurn(a.store, programs), [])
  {
    if programs == [] {
    } else {
      OneByOneIsInTurn(a, programs[..|programs| - 1]);
      DoAllIsAlone(OneByOne(a, programs[..|programs| - 1]).0, programs[|programs| - 1]);
    }
  }

  lemma {:induction false} AloneElsewhere(store: Store, program: seq<Op>, key: Key)
    requires forall op :: op in program ==> op.Target() != key
    ensures Agree(Alone(store, program), store, key)
  {
    if program == [] {
    } else {
      assert program[|program| - 1] in program;
      AloneElsewhere(store, program[..|program| - 1], key);
    }
  }

  lemma {:induction false} AloneAlike(a: Store, b: Store, program: seq<Op>, key: Key)
    requires Agree(a, b, key)
    ensures Agree(Alone(a, program), Alone(b, program), key)
  {
    if program == [] {
    } else {
      AloneAlike(a, b, program[..|program| - 1], key);
    }
  }

  function ProgramsOf(workers: seq<Worker>, turns: seq<nat>): seq<seq<Op>>
    requires forall i :: 0 <= i < |turns| ==> turns[i] < |workers|
  {
    seq(|turns|, i requires 0 <= i < |turns| => workers[turns[i]].program)
  }

  lemma InTurnStep(s: System, turns: seq<nat>)
    requires turns != [] && forall k :: 0 <= k < |turns| ==> turns[k] < |s.workers|
    ensures InTurn(s.store, ProgramsOf(s.workers, turns)) ==
            Alone(InTurn(s.store, ProgramsOf(s.workers, turns[..|turns| - 1])), s.workers[turns[|turns| - 1]].program)
  {
    assert ProgramsOf(s.workers, turns)[..|turns| - 1] == ProgramsOf(s.workers, turns[..|turns| - 1]);
  }

  lemma {:induction false} InTurnAt(s: System, turns: seq<nat>, i: nat, key: Key)
    requires Ready(s) && forall k :: 0 <= k < |turns| ==> turns[k] < |s.workers|
    requires forall j, k :: 0 <= j < k < |turns| ==> turns[j] != turns[k]
    requires i < |s.workers| && Own(key, s.workers[i].base)
    ensures Agree(InTurn(s.store, ProgramsOf(s.workers, turns)),
                  if i in turns then Alone(s.store, s.workers[i].program) else s.store, key)
  {
    if turns == [] {
    } else {
      var init, last := turns[..|turns| - 1], turns[|turns| - 1];
      assert turns == init + [last] && last == turns[|init|];
      var before := InTurn(s.store, ProgramsOf(s.workers, init));
      InTurnStep(s, turns);
      InTurnAt(s, init, i, key);
      if i == last {
        AloneAlike(before, s.store, s.workers[i].program, key);
      } else {
        ElsewhereThan(s, i, last, key);
        AloneElsewhere(before, s.workers[last].program, key);
      }
    }
  }

  lemma ElsewhereThan(s: System, i: nat, j: nat, key: Key)
    requires Ready(s) && i < |s.workers| && j < |s.workers| && i != j && Own(key, s.workers[i].base)
    ensures forall op :: op in s.workers[j].program ==> op.Target() != key
  {
  }

  lemma {:induction false} InTurnForeign(s: System, turns: seq<nat>, key: Key)
    requires Ready(s) && forall k :: 0 <= k < |turns| ==> turns[k] < |s.workers|
    requires Foreign(key, s.workers)
    ensures Agree(InTurn(s.store, ProgramsOf(s.workers, turns)), s.store, key)
  {
    if turns == [] {
    } else {
      var init, last := turns[..|turns| - 1], turns[|turns| - 1];
      assert turns == init + [last] && last == turns[|init|];
      InTurnStep(s, turns);
      InTurnForeign(s, init, key);
      assert s.workers[last] in s.workers;
      AloneElsewhere(InTurn(s.store, ProgramsOf(s.workers, init)), s.workers[last].program, key);
    }
  }

  lemma SameAsInTurn(s: System, schedule: seq<Turn>, turns: seq<nat>, key: Key)
    requires Ready(s)
    requires forall w :: w in Run(s, schedule).workers ==> w.Finished()
    requires forall k :: 0 <= k < |turns| ==> turns[k] < |s.workers|
    requires forall i :: 0 <= i < |s.workers| ==> i in turns
    requires forall j, k :: 0 <= j < k < |turns| ==> turns[j] != turns[k]
    requires key.kind != NamespaceKind
    ensures Agree(Run(s, schedule).store, InTurn(s.store, ProgramsOf(s.workers, turns)), key)
  {
    var now := Run(s, schedule);
    Isolation(s, schedule);
    if Foreign(key, s.workers) {
      InTurnForeign(s, turns, key);
    } else {
      var i :| 0 <= i < |s.workers| && key.name == s.workers[i].base;
      InTurnAt(s, turns, i, key);
      var w := now.workers[i];
      assert w in now.workers && w.Effects() == w.program;
      assert Undisturbed(s.store, now.store, w);
      assert Own(key, w.base);
    }
  }

  /** Serialisability: an interleaving in which every worker finishes leaves the roles and bindings of
      performing the programs one after another, in whichever order they all succeed. */
  lemma Serializable(s: System, schedule: seq<Turn>, turns: seq<nat>, key: Key)
    requires Ready(s)
    requires forall w :: w in Run(s, schedule).workers ==> w.Finished()
    requires forall k :: 0 <= k < |turns| ==> turns[k] < |s.workers|
    requires forall i :: 0 <= i < |s.workers| ==> i in turns
    requires forall j, k :: 0 <= j < k < |turns| ==> turns[j] != turns[k]
    requires OneByOne(Api(s.store, []), ProgramsOf(s.workers, turns)).1
    requires key.kind != NamespaceKind
    ensures Agree(Run(s, schedule).store, OneByOne(Api(s.store, []), ProgramsOf(s.workers, turns)).0.store, key)
  {
    SameAsInTurn(s, schedule, turns, key);
    OneByOneIsInTurn(Api(s.store, []), ProgramsOf(s.workers, turns));
  }

  /** So whoever is authorised to do something after the interleaving is so after the sequence. */
  lemma SerializableMeaning(s: System, schedule: seq<Turn>, turns: seq<nat>, sa: Subject, q: Request)
    requires Ready(s)
    requires forall w :: w in Run(s, schedule).workers ==> w.Finished()
    requires forall k :: 0 <= k < |turns| ==> turns[k] < |s.workers|
    requires forall i :: 0 <= i < |s.workers| ==> i in turns
    requires forall j, k :: 0 <= j < k < |turns| ==> turns[j] != turns[k]
    requires OneByOne(Api(s.store, []), ProgramsOf(s.workers, turns)).1
    ensures Authorized(Run(s, schedule).store, sa, q) <==>
            Authorized(OneByOne(Api(s.store, []), ProgramsOf(s.workers, turns)).0.store, sa, q)
  {
    var sequence := OneByOne(Api(s.store, []), ProgramsOf(s.workers, turns)).0.store;
    forall key: Key | key.kind != NamespaceKind
      ensures Agree(Run(s, schedule).store, sequence, key)
    {
      Serializable(s, schedule, turns, key);
    }
    AgreeingStoresAuthorizeAlike(Run(s, schedule).store, sequence, sa, q);
    AgreeingStoresAuthorizeAlike(sequence, Run(s, schedule).store, sa, q);
  }

  lemma AgreeingStoresAuthorizeAlike(a: Store, b: Store, sa: Subject, q: Request)
    requires forall key: Key :: key.kind != NamespaceKind ==> Agree(a, b, key)
    ensures Authorized(a, sa, q) ==> Authorized(b, sa, q)
  {
    if key :| GrantedBy(a, key, sa, q) {
      assert GrantedBy(b, key, sa, q);
    }
  }

  // ------------------------------------------------------------ what can go wrong

  /** Somebody else has created the namespace since the worker looked. */
  ghost predicate Overtaken(now: Store, w: Worker) {
    && !w.Idle() && w.program[w.done].Apply? && w.program[w.done].o.key.kind.NamespaceKind?
    && w.seen == Some(NotFound) && w.program[w.done].o.key in now
  }

  /** The write that is due would be refused: a missing namespace, or a binding of another role. */
  ghost predicate Refused(now: Store, w: Worker) {
    && !w.Idle() && w.program[w.done].Apply? && w.seen.Some? && !w.seen.value.Failed?
    && var o := w.program[w.done].o;
      !Accepts(now, o.key, if w.seen.value.Found? then Settled(o.key, w.seen.value.value, o.body) else o.body)
  }

  /** While every call is answered, these are the only things that can stop a worker. */
  lemma AnsweredStepFails(initial: Store, now: Store, w: Worker)
    requires Undisturbed(initial, now, w) && !w.failed && w.seen != Some(Failed)
    ensures Step(now, w, Fine).1.failed <==> Overtaken(now, w) || Refused(now, w)
  {
    if !w.Idle() {
      assert w.program[w.done] in w.program;
    }
  }

  lemma RunMore(s: System, schedule: seq<Turn>, t: Turn)
    ensures Run(s, schedule + [t]) == Move(Run(s, schedule), t)
  {
  }

  // ------------------------------------------------------------ the installer's programs

  function ApplyProgram(objects: seq<Object>): (ops: seq<Op>) {
    seq(|objects|, i requires 0 <= i < |objects| => Apply(objects[i]))
  }

  function DeleteProgram(keys: seq<Key>): (ops: seq<Op>) {
    seq(|keys|, i requires 0 <= i < |keys| => Delete(keys[i]))
  }

  /** Alone, the program of an apply does what the installer does, and so does that of an uninstall. */
  lemma {:induction false} AloneApplies(store: Store, objects: seq<Object>)
    ensures Alone(store, ApplyProgram(objects)) == LandAll(store, objects)
  {
    if objects == [] {
    } else {
      assert ApplyProgram(objects)[..|objects| - 1] == ApplyProgram(objects[..|objects| - 1]);
      AloneApplies(store, objects[..|objects| - 1]);
    }
  }

  lemma {:induction false} AloneDeletes(store: Store, keys: seq<Key>)
    ensures Alone(store, DeleteProgram(keys)) == store - KeySet(keys)
  {
    if keys == [] {
      assert store - KeySet(keys) == store;
    } else {
      var init, last := keys[..|keys| - 1], keys[|keys| - 1];
      assert DeleteProgram(keys)[..|init|] == DeleteProgram(init);
      AloneDeletes(store, init);
      assert keys == init + [last];
      assert KeySet(keys) == KeySet(init) + {last};
      assert store - KeySet(init) - {last} == store - KeySet(keys);
    }
  }

  /** ApplyRBAC and UninstallRBAC of a generated policy mind their own release. */
  lemma InstallerMinds(inp: Input, order: seq<string>)
    requires inp.Order(order)
    ensures Minds(Worker(inp.base, ApplyProgram(inp.Writes(order)), 0, None, false))
    ensures Minds(Worker(inp.base, DeleteProgram(inp.Deletes(order)), 0, None, false))
  {
    forall op | op in ApplyProgram(inp.Writes(order)) ensures Own(op.Target(), inp.base) || (op.Apply? && IsNamespaceObject(op.o)) {
      InWrites(inp, order, op.o);
    }
    DeletesAre(inp, order);
    forall op | op in DeleteProgram(inp.Deletes(order)) ensures Own(op.Target(), inp.base) {
      assert op.key in KeySet(inp.Deletes(order));
    }
  }
}
