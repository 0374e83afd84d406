/** Convergence: with its inputs fixed and no call failing, one round of the driver (observe, then what
    the observation asks for) brings a composition to a state that every later observation confirms. */
module Convergence {
  import opened Kube
  import opened Landing
  import Hasher
  import opened Meaning
  import opened Processor
  import opened Whitespace
  import opened Meta
  import opened Resolver
  import opened Lifecycle
  import opened Faultless
  import A = Authorization
  import S = Safety
  import R = Reconcile

  /** One round of the driver. */
  function Dispatch(cfg: R.Config, env: R.Env, w: R.World, seen: R.Observation): R.Step<()> {
    if seen.resourceExists && seen.resourceUpToDate then
      var (w, _) :- R.Observe(cfg, env, w);
      R.Go(w, ())
    else if seen.resourceUpToDate then R.Delete(cfg, env, w)
    else if seen.resourceExists then R.Update(cfg, env, w)
    else R.Create(cfg, env, w)
  }

  function Round(cfg: R.Config, env: R.Env, acting: R.Env, w: R.World): R.Step<()> {
    var (w, seen) :- R.Observe(cfg, env, w);
    Dispatch(cfg, acting, w, seen)
  }

  // ------------------------------------------------------------ paused compositions

  /** Observing a paused composition without faults is all there is to it. */
  lemma PausedIsObserved(cfg: R.Config, env: R.Env, w: R.World)
    requires w.api.faults == [] && R.Paused(cfg, w.cr) && CalculateReleaseName(w.cr, cfg.safeReleaseName, env.draw).Some?
    ensures R.Observe(cfg, env, w) == R.Go(w, R.Observation(true, true))
  {
    assert R.Local(w) == R.Go(w, ());
    assert R.Named(cfg, env, w, w.cr) == R.Go(w, NamedCR(cfg, env, w.cr));
  }

  // ------------------------------------------------------------ observing twice

  /** Writing an answer down a second time changes nothing. */
  lemma SeenAgain(cfg: R.Config, env: R.Env, again: R.Env, w: R.World, next: R.World)
    requires Calm(cfg, env, w) && Calm(cfg, again, next) && SameInputs(env, again)
    requires next.cr == Seen(cfg, env, w).(status := next.cr.status)
    ensures Seen(cfg, again, next) == next.cr
  {
    var mg := NamedCR(cfg, env, w.cr);
    var info := Fetch(env.definitions, Wanted(w.cr.labels, w.cr.kind)).value;
    NameKeepsAnswer(env.definitions, w.cr.labels, w.cr.kind, CalculateReleaseName(w.cr, cfg.safeReleaseName, env.draw).value);
    assert next.cr.labels == WithDefinition(mg.labels, info.definition);
    assert WithDefinition(next.cr.labels, info.definition) == next.cr.labels;
    assert next.cr.annotations - {PAUSED_TIME} == next.cr.annotations;
  }

  /** The objects of a policy land a second time without a trace, in whatever order. */
  lemma LandedAlready(inp: Input, store: Store, order: seq<string>, other: seq<string>)
    requires inp.Order(order) && inp.Order(other)
    ensures var after := LandAll(store, inp.Writes(order)); LandAll(after, inp.Writes(other)) == after
  {
    WritesConsistent(inp, order);
    SameWrites(inp, order, other);
    LandAllOrderIrrelevant(LandAll(store, inp.Writes(order)), inp.Writes(order), inp.Writes(other));
    LandAllAbsorbs(store, inp.Writes(order), inp.Writes(order));
  }

  /** The release that a round is about. */
  function NameOf(cfg: R.Config, env: R.Env, w: R.World): string
    requires CalculateReleaseName(w.cr, cfg.safeReleaseName, env.draw).Some?
  {
    GetReleaseName(NamedCR(cfg, env, w.cr))
  }

  /** What it takes to stay calm: the name is recorded, the definition still found, the policy still let
      through. */
  lemma StaysCalm(cfg: R.Config, env: R.Env, next: R.Env, w: R.World, after: R.World)
    requires Calm(cfg, env, w) && SameInputs(env, next) && after.api.faults == []
    requires after.cr == w.cr.(labels := after.cr.labels, annotations := after.cr.annotations, status := after.cr.status)
    requires RELEASE_NAME in after.cr.labels && after.cr.labels[RELEASE_NAME] == NameOf(cfg, env, w)
    requires Resolve(env.definitions, Wanted(after.cr.labels, after.cr.kind)) == Resolve(env.definitions, Wanted(w.cr.labels, w.cr.kind))
    requires Grantable(cfg, env, after, NameOf(cfg, env, w))
    ensures Calm(cfg, next, after)
  {
    assert GetReleaseName(NamedCR(cfg, next, after.cr)) == NameOf(cfg, env, w);
    assert R.PolicyInput(cfg, after, NameOf(cfg, env, w), env.inspected.value)
        == R.PolicyInput(cfg, after, GetReleaseName(NamedCR(cfg, next, after.cr)), next.inspected.value);
  }

  lemma SeenStaysCalm(cfg: R.Config, env: R.Env, next: R.Env, w: R.World, at: R.World)
    requires Calm(cfg, env, w) && SameInputs(env, next) && at.api.faults == []
    requires at.cr == Seen(cfg, env, w).(status := at.cr.status)
    requires at.api.store == w.api.store || at.api.store == Granted(cfg, env, w, NameOf(cfg, env, w)).store
    ensures Calm(cfg, next, at)
  {
    StillGrantable(cfg, env, w, NameOf(cfg, env, w), env, at);
    StaysCalm(cfg, env, next, w, at);
  }

  lemma CalmAfterObserve(cfg: R.Config, env: R.Env, next: R.Env, w: R.World) returns (at: R.World)
    requires Calm(cfg, env, w) && SameInputs(env, next) && !R.Paused(cfg, w.cr)
    ensures R.Observe(cfg, env, w).Go? && R.Observe(cfg, env, w).w == at && Calm(cfg, next, at) && !R.Paused(cfg, at.cr)
  {
    ObserveCalm(cfg, env, w);
    at := R.Observe(cfg, env, w).w;
    SeenStaysCalm(cfg, env, next, w, at);
  }

  /** Nothing differs once the chart is deployed and its digest is recorded. */
  lemma CurrentIsNotDrifted(cfg: R.Config, env: R.Env, w: R.World)
    requires Calm(cfg, env, w) && Current(env, w)
    ensures !Drifted(cfg, env, w)
  {
  }

  /** Observing is idempotent once it has found everything up to date: the next observation leaves the
      composition as it is (digests, managed list, labels, annotations) and the roles and bindings too;
      the release history as well, if the Helm client skips upgrades that change nothing. */
  lemma ObservingAgainChangesNothing(cfg: R.Config, env: R.Env, again: R.Env, w: R.World)
    requires Calm(cfg, env, w) && SameInputs(env, again)
    requires R.Observe(cfg, env, w).Go? && R.Observe(cfg, env, w).v == R.Observation(true, true)
    ensures var once := R.Observe(cfg, env, w).w;
            var twice := R.Observe(cfg, again, once);
            && twice.Go? && twice.v == R.Observation(true, true)
            && twice.w.cr == once.cr && twice.w.api == once.api
            && (again.skipsUnchanged ==> twice.w.releases == once.releases)
  {
    if R.Paused(cfg, w.cr) {
      PausedIsObserved(cfg, env, w);
      PausedIsObserved(cfg, again, w);
    } else {
      ObserveCalm(cfg, env, w);
      var once := CalmAfterObserve(cfg, env, again, w);
      SeenAgain(cfg, env, again, w, once);
      CurrentIsNotDrifted(cfg, again, once);
      ObserveCalm(cfg, again, once);
      var name := once.cr.labels[RELEASE_NAME];
      LandedAlready(R.PolicyInput(cfg, w, name, env.inspected.value), w.api.store, env.order, again.order);
    }
  }

  // ------------------------------------------------------------ rounds

  /** The composition after a round: created, updated, or only observed. */
  ghost function RoundCR(cfg: R.Config, env: R.Env, acting: R.Env, w: R.World): Composition
    requires Calm(cfg, env, w) && SameInputs(env, acting)
  {
    var seen := Seen(cfg, env, w);
    if R.History(w, NameOf(cfg, env, w)) == [] then seen.(status := CreatedStatus(cfg, acting, seen))
    else if Drifted(cfg, env, w) then UpdatedCR(cfg, acting, seen)
    else seen.(status := JudgedStatus(seen.status, InfoFor(env, w.cr), Digest(env.manifest)))
  }

  lemma CalmIsGrantable(cfg: R.Config, env: R.Env, w: R.World, name: string)
    requires Calm(cfg, env, w) && RELEASE_NAME in w.cr.labels && name == w.cr.labels[RELEASE_NAME]
    ensures Grantable(cfg, env, w, name)
  {
  }

  lemma ObserveNothing(cfg: R.Config, env: R.Env, acting: R.Env, w: R.World) returns (at: R.World)
    requires Calm(cfg, env, w) && SameInputs(env, acting) && !R.Paused(cfg, w.cr)
    requires R.History(w, NameOf(cfg, env, w)) == []
    ensures R.Observe(cfg, env, w) == R.Go(at, R.Observation(false, false))
    ensures Calm(cfg, acting, at) && at.cr == Seen(cfg, env, w) && R.History(at, NameOf(cfg, env, w)) == []
  {
    ObserveOfNothing(cfg, env, w);
    at := w.(cr := Seen(cfg, env, w));
    SeenStaysCalm(cfg, env, acting, w, at);
  }

  lemma RoundCRIs(cfg: R.Config, env: R.Env, acting: R.Env, w: R.World, seen: Composition)
    requires Calm(cfg, env, w) && SameInputs(env, acting) && seen == Seen(cfg, env, w)
    ensures R.History(w, NameOf(cfg, env, w)) == [] ==>
              RoundCR(cfg, env, acting, w) == seen.(status := CreatedStatus(cfg, acting, seen))
    ensures Drifted(cfg, env, w) ==> RoundCR(cfg, env, acting, w) == UpdatedCR(cfg, acting, seen)
  {
  }

  lemma RoundCreates(cfg: R.Config, env: R.Env, acting: R.Env, w: R.World) returns (at: R.World, after: R.World)
    requires Calm(cfg, env, w) && SameInputs(env, acting) && !R.Paused(cfg, w.cr)
    requires R.History(w, NameOf(cfg, env, w)) == []
    ensures R.Observe(cfg, env, w) == R.Go(at, R.Observation(false, false)) && at.api.faults == []
    ensures R.Create(cfg, acting, at) == R.Go(after, ())
    ensures after.api.faults == [] && after.cr == RoundCR(cfg, env, acting, w)
    ensures Deployed(env, after, NameOf(cfg, env, w)) && Grantable(cfg, env, after, NameOf(cfg, env, w))
    ensures LastOf(after, NameOf(cfg, env, w)).inspected == env.inspected.value
  {
    at := ObserveNothing(cfg, env, acting, w);
    after := CreateCalm(cfg, acting, at, NameOf(cfg, env, w));
    RoundCRIs(cfg, env, acting, w, at.cr);
    CalmIsGrantable(cfg, acting, at, NameOf(cfg, env, w));
    StillGrantable(cfg, acting, at, NameOf(cfg, env, w), env, after);
  }

  lemma ObserveDrift(cfg: R.Config, env: R.Env, acting: R.Env, w: R.World) returns (at: R.World)
    requires Calm(cfg, env, w) && SameInputs(env, acting) && !R.Paused(cfg, w.cr) && Drifted(cfg, env, w)
    ensures R.Observe(cfg, env, w) == R.Go(at, R.Observation(true, false))
    ensures Calm(cfg, acting, at) && at.cr == Seen(cfg, env, w) && Deployed(env, at, NameOf(cfg, env, w))
  {
    ObserveCalm(cfg, env, w);
    at := R.Observe(cfg, env, w).w;
    SeenStaysCalm(cfg, env, acting, w, at);
  }

  lemma UpdateAfterDrift(cfg: R.Config, acting: R.Env, at: R.World, name: string) returns (after: R.World)
    requires Calm(cfg, acting, at) && RELEASE_NAME in at.cr.labels && PAUSED_TIME !in at.cr.annotations
    requires name == at.cr.labels[RELEASE_NAME] && Deployed(acting, at, name)
    ensures R.Update(cfg, acting, at) == R.Go(after, ())
    ensures after.api == at.api && after.cr == UpdatedCR(cfg, acting, at.cr) && Deployed(acting, after, name)
  {
    UpdateCalm(cfg, acting, at);
    after := at.(cr := UpdatedCR(cfg, acting, at.cr));
  }

  lemma RoundUpdates(cfg: R.Config, env: R.Env, acting: R.Env, w: R.World) returns (at: R.World, after: R.World)
    requires Calm(cfg, env, w) && SameInputs(env, acting) && !R.Paused(cfg, w.cr) && Drifted(cfg, env, w)
    ensures R.Observe(cfg, env, w) == R.Go(at, R.Observation(true, false))
    ensures R.Update(cfg, acting, at) == R.Go(after, ())
    ensures after.api.faults == [] && after.cr == RoundCR(cfg, env, acting, w)
    ensures Deployed(env, after, NameOf(cfg, env, w)) && Grantable(cfg, env, after, NameOf(cfg, env, w))
  {
    at := ObserveDrift(cfg, env, acting, w);
    after := UpdateAfterDrift(cfg, acting, at, NameOf(cfg, env, w));
    RoundCRIs(cfg, env, acting, w, at.cr);
    CalmIsGrantable(cfg, acting, at, NameOf(cfg, env, w));
    StillGrantable(cfg, acting, at, NameOf(cfg, env, w), env, after);
  }

  lemma RoundConfirms(cfg: R.Config, env: R.Env, acting: R.Env, w: R.World) returns (at: R.World, after: R.World)
    requires Calm(cfg, env, w) && SameInputs(env, acting) && !R.Paused(cfg, w.cr)
    requires R.History(w, NameOf(cfg, env, w)) != [] && !Drifted(cfg, env, w)
    ensures R.Observe(cfg, env, w) == R.Go(at, R.Observation(true, true))
    ensures R.Observe(cfg, acting, at) == R.Go(after, R.Observation(true, true))
    ensures after.api.faults == [] && after.cr == RoundCR(cfg, env, acting, w)
    ensures Deployed(env, after, NameOf(cfg, env, w)) && Grantable(cfg, env, after, NameOf(cfg, env, w))
  {
    ObserveCalm(cfg, env, w);
    at := CalmAfterObserve(cfg, env, acting, w);
    ObservingAgainChangesNothing(cfg, env, acting, w);
    ObserveCalm(cfg, acting, at);
    after := R.Observe(cfg, acting, at).w;
    CalmIsGrantable(cfg, acting, at, NameOf(cfg, env, w));
    StillGrantable(cfg, acting, at, NameOf(cfg, env, w), env, after);
  }

  lemma RoundEnds(cfg: R.Config, env: R.Env, acting: R.Env, w: R.World, at: R.World, seen: R.Observation, after: R.World)
    requires R.Observe(cfg, env, w) == R.Go(at, seen)
    requires if seen == R.Observation(true, true) then R.Observe(cfg, acting, at) == R.Go(after, R.Observation(true, true))
             else if seen == R.Observation(true, false) then R.Update(cfg, acting, at) == R.Go(after, ())
             else seen == R.Observation(false, false) && R.Create(cfg, acting, at) == R.Go(after, ())
    ensures Round(cfg, env, acting, w) == R.Go(after, ())
  {
  }

  /** What the observation of a round asks for: a create when there is no release, an update exactly when
      the composition has drifted, and nothing otherwise. */
  lemma Verdict(cfg: R.Config, env: R.Env, w: R.World)
    requires Calm(cfg, env, w) && !R.Paused(cfg, w.cr)
    ensures R.Observe(cfg, env, w).Go?
    ensures R.Observe(cfg, env, w).v ==
            R.Observation(R.History(w, NameOf(cfg, env, w)) != [],
                          R.History(w, NameOf(cfg, env, w)) != [] && !Drifted(cfg, env, w))
  {
    ObserveCalm(cfg, env, w);
  }

  /** A round, from whatever state the release was in: missing, stuck, outdated, with an empty manifest,
      or with nothing but a new chart version. The release becomes the rendered chart, and the
      composition becomes exactly this. */
  lemma RoundCalm(cfg: R.Config, env: R.Env, acting: R.Env, w: R.World)
    requires Calm(cfg, env, w) && SameInputs(env, acting) && !R.Paused(cfg, w.cr)
    ensures var after := Round(cfg, env, acting, w);
            && after.Go? && after.w.api.faults == [] && after.w.cr == RoundCR(cfg, env, acting, w)
            && Deployed(env, after.w, NameOf(cfg, env, w)) && Grantable(cfg, env, after.w, NameOf(cfg, env, w))
  {
    if R.History(w, NameOf(cfg, env, w)) == [] {
      var at, after := RoundCreates(cfg, env, acting, w);
      RoundEnds(cfg, env, acting, w, at, R.Observation(false, false), after);
    } else if Drifted(cfg, env, w) {
      var at, after := RoundUpdates(cfg, env, acting, w);
      RoundEnds(cfg, env, acting, w, at, R.Observation(true, false), after);
    } else {
      var at, after := RoundConfirms(cfg, env, acting, w);
      RoundEnds(cfg, env, acting, w, at, R.Observation(true, true), after);
    }
  }

  /** A round makes a composition current and leaves it calm for what follows. */
  lemma RoundMakesCurrent(cfg: R.Config, env: R.Env, acting: R.Env, next: R.Env, w: R.World)
    requires Calm(cfg, env, w) && SameInputs(env, acting) && SameInputs(env, next) && !R.Paused(cfg, w.cr)
    ensures var after := Round(cfg, env, acting, w);
            after.Go? && Current(next, after.w) && Calm(cfg, next, after.w)
  {
    RoundCalm(cfg, env, acting, w);
    StaysCalm(cfg, env, next, w, Round(cfg, env, acting, w).w);
  }

  /** A composition that is current, and whose inputs have not changed, is reported as it is. */
  lemma CurrentIsObserved(cfg: R.Config, env: R.Env, w: R.World)
    requires Calm(cfg, env, w) && Current(env, w)
    ensures R.Observe(cfg, env, w).Go? && R.Observe(cfg, env, w).v == R.Observation(true, true)
  {
    if R.Paused(cfg, w.cr) {
      PausedIsObserved(cfg, env, w);
    } else {
      CurrentIsNotDrifted(cfg, env, w);
      Verdict(cfg, env, w);
    }
  }

  lemma PausedRound(cfg: R.Config, env: R.Env, acting: R.Env, w: R.World)
    requires Calm(cfg, env, w) && SameInputs(env, acting) && R.Paused(cfg, w.cr)
    ensures Round(cfg, env, acting, w) == R.Go(w, ())
  {
    PausedIsObserved(cfg, env, w);
    PausedIsObserved(cfg, acting, w);
  }

  /** One-step convergence: observe, do what was asked for, observe again, and all is well. */
  lemma OneRoundConverges(cfg: R.Config, env: R.Env, acting: R.Env, again: R.Env, w: R.World)
    requires Calm(cfg, env, w) && SameInputs(env, acting) && SameInputs(env, again)
    ensures var after := Round(cfg, env, acting, w);
            && after.Go? && (!R.Paused(cfg, w.cr) ==> Current(env, after.w))
            && R.Observe(cfg, again, after.w).Go? && R.Observe(cfg, again, after.w).v == R.Observation(true, true)
  {
    if R.Paused(cfg, w.cr) {
      PausedRound(cfg, env, acting, w);
      PausedIsObserved(cfg, again, w);
    } else {
      RoundMakesCurrent(cfg, env, acting, again, w);
      CurrentIsObserved(cfg, again, Round(cfg, env, acting, w).w);
    }
  }

  lemma DriftFromDeployed(cfg: R.Config, env: R.Env, w: R.World, deployed: R.Env)
    requires CalculateReleaseName(w.cr, cfg.safeReleaseName, env.draw).Some?
    requires Deployed(deployed, w, NameOf(cfg, env, w)) && w.cr.status.digest == Digest(deployed.manifest)
    ensures Drifted(cfg, env, w) <==>
            Digest(env.manifest) != Digest(deployed.manifest) || env.chartVersion != deployed.chartVersion
  {
  }

  /** Change detection: a deployed manifest that changes in one octet, the chart version staying as it is,
      is reported, unless it is blank before and after. */
  lemma OctetChangeIsReported(cfg: R.Config, env: R.Env, w: R.World, before: seq<Hasher.byte>, b: Hasher.byte, c: Hasher.byte,
                              after: seq<Hasher.byte>)
    requires Calm(cfg, env, w) && !R.Paused(cfg, w.cr) && b != c
    requires Deployed(env.(manifest := before + [b] + after), w, NameOf(cfg, env, w))
    requires w.cr.status.digest == Digest(before + [b] + after) && env.manifest == before + [c] + after
    ensures R.Observe(cfg, env, w).Go?
    ensures R.Observe(cfg, env, w).v == R.Observation(true, false) <==>
            !(Blank(before + [b] + after) && Blank(before + [c] + after))
  {
    Verdict(cfg, env, w);
    DriftFromDeployed(cfg, env, w, env.(manifest := before + [b] + after));
    ChangeDetected(before, b, c, after);
  }

  /** So anything visible in a manifest makes every change of one octet in it a reported one. */
  lemma VisibleChangeIsReported(cfg: R.Config, env: R.Env, w: R.World, before: seq<Hasher.byte>, b: Hasher.byte, c: Hasher.byte,
                                after: seq<Hasher.byte>)
    requires Calm(cfg, env, w) && !R.Paused(cfg, w.cr) && b != c
    requires exists x :: x in before + [b, c] + after && Visible(x)
    requires Deployed(env.(manifest := before + [b] + after), w, NameOf(cfg, env, w))
    requires w.cr.status.digest == Digest(before + [b] + after) && env.manifest == before + [c] + after
    ensures R.Observe(cfg, env, w).Go? && R.Observe(cfg, env, w).v == R.Observation(true, false)
  {
    Verdict(cfg, env, w);
    DriftFromDeployed(cfg, env, w, env.(manifest := before + [b] + after));
    VisibleChangeDetected(before, b, c, after);
  }

  /** When the managed list describes the release after a round: it did so before, or the round updated,
      or it created a release that has objects. A create without objects, and a round that finds nothing
      to do, leave a list that was wrong or missing as it was. */
  lemma RoundListsTheObjects(cfg: R.Config, env: R.Env, acting: R.Env, w: R.World)
    requires Calm(cfg, env, w) && SameInputs(env, acting) && !R.Paused(cfg, w.cr)
    ensures Round(cfg, env, acting, w).Go? && Round(cfg, env, acting, w).w.cr.namespace == w.cr.namespace
    ensures Lists(cfg, env, Round(cfg, env, acting, w).w.cr) <==>
            || Lists(cfg, env, w.cr)
            || Drifted(cfg, env, w)
            || (R.History(w, NameOf(cfg, env, w)) == [] && Objects(cfg, env) != [])
  {
    RoundCalm(cfg, env, acting, w);
  }

  /** The previous digest that an update records outlives the next observation exactly when it equals the
      new one. */
  lemma PreviousDigestIsForgotten(cfg: R.Config, env: R.Env, acting: R.Env, again: R.Env, w: R.World)
    requires Calm(cfg, env, w) && SameInputs(env, acting) && SameInputs(env, again) && !R.Paused(cfg, w.cr)
    requires Drifted(cfg, env, w) && !R.Paused(cfg, Round(cfg, env, acting, w).w.cr)
    ensures var after := Round(cfg, env, acting, w).w;
            && after.cr.status.previousDigest == w.cr.status.digest
            && (R.Observe(cfg, again, after).w.cr.status.previousDigest == after.cr.status.previousDigest <==>
                  w.cr.status.digest == Digest(env.manifest))
  {
    RoundCalm(cfg, env, acting, w);
    RoundMakesCurrent(cfg, env, acting, again, w);
    var after := Round(cfg, env, acting, w).w;
    CurrentIsNotDrifted(cfg, again, after);
    ObserveCalm(cfg, again, after);
  }

  lemma DriftAfterUpgrade(cfg: R.Config, env: R.Env, again: R.Env, at: R.World, name: string)
    requires CalculateReleaseName(at.cr, cfg.safeReleaseName, again.draw).Some? && SameInputs(env, again)
    requires RELEASE_NAME in at.cr.labels && name == at.cr.labels[RELEASE_NAME] && Deployed(env, at, name)
    ensures R.History(at, NameOf(cfg, again, at)) != []
    ensures Drifted(cfg, again, at) <==> at.cr.status.digest != "" && at.cr.status.digest != Digest(env.manifest)
  {
  }

  lemma SeenKeepsTheFlag(cfg: R.Config, env: R.Env, w: R.World)
    requires Calm(cfg, env, w)
    ensures !R.Paused(cfg, Seen(cfg, env, w)) && IsGracefullyPaused(Seen(cfg, env, w)) == IsGracefullyPaused(w.cr)
    ensures Seen(cfg, env, w).status == w.cr.status
  {
  }

  /** Observe upgrades before it judges. So drift that it has reported is only still there for the next
      observation if the recorded digest tells: drift of the chart version alone, and drift of a release
      whose digest was never recorded, is forgotten if the update that was asked for does not happen. */
  lemma DriftIsForgotten(cfg: R.Config, env: R.Env, again: R.Env, w: R.World) returns (at: R.World)
    requires Calm(cfg, env, w) && SameInputs(env, again) && !R.Paused(cfg, w.cr) && Drifted(cfg, env, w)
    ensures R.Observe(cfg, env, w) == R.Go(at, R.Observation(true, false))
    ensures Calm(cfg, again, at) && !R.Paused(cfg, at.cr) && IsGracefullyPaused(at.cr) == IsGracefullyPaused(w.cr)
    ensures Drifted(cfg, again, at) <==> w.cr.status.digest != "" && w.cr.status.digest != Digest(env.manifest)
    ensures R.Observe(cfg, again, at).Go?
    ensures R.Observe(cfg, again, at).v == R.Observation(true, !Drifted(cfg, again, at))
  {
    at := ObserveDrift(cfg, env, again, w);
    SeenKeepsTheFlag(cfg, env, w);
    DriftAfterUpgrade(cfg, env, again, at, NameOf(cfg, env, w));
    Verdict(cfg, again, at);
  }

  /** Asking for a pause takes effect in the round that sees it exactly when the composition has drifted:
      one that is up to date, and one that is only now created, go on being reconciled. */
  lemma PauseNeedsAnUpdate(cfg: R.Config, env: R.Env, acting: R.Env, w: R.World)
    requires Calm(cfg, env, w) && SameInputs(env, acting)
    requires IsGracefullyPaused(w.cr) && !R.Paused(cfg, w.cr) && cfg.readable(acting.now)
    ensures Round(cfg, env, acting, w).Go?
    ensures R.Paused(cfg, Round(cfg, env, acting, w).w.cr) <==> Drifted(cfg, env, w)
  {
    KeysDiffer();
    RoundCalm(cfg, env, acting, w);
  }

  // ------------------------------------------------------------ the first deployment

  lemma TwoCallsAreARun(cfg: R.Config, env: R.Env, acting: R.Env, w: R.World, at: R.World, after: R.World)
    requires w.api.faults == env.faults == acting.faults == at.api.faults && R.ValidEnv(env) && R.ValidEnv(acting)
    requires R.Observe(cfg, env, w).w == at && R.Create(cfg, acting, at).w == after
    ensures var events := [S.Observing(env), S.Creating(acting)];
            S.PossibleRun(cfg, w, events) && S.Run(cfg, w, events) == after
  {
    assert S.Facing(w, env) == w && S.Facing(at, acting) == at;
    assert [] + [S.Observing(env)] == [S.Observing(env)];
    S.LastEvent(cfg, w, [], S.Observing(env));
    assert [S.Observing(env)] + [S.Creating(acting)] == [S.Observing(env), S.Creating(acting)];
    S.LastEvent(cfg, w, [S.Observing(env)], S.Creating(acting));
  }

  /** For a composition that is new, an observation and a create are a run in the sense of Safety; it
      ends with the chart deployed and with everything the inspector listed permitted. */
  lemma FirstRoundDeploys(cfg: R.Config, env: R.Env, acting: R.Env, w: R.World, q: Request)
    requires S.Fresh(w) && Calm(cfg, env, w) && SameInputs(env, acting) && !R.Paused(cfg, w.cr)
    requires env.faults == [] && acting.faults == []
    ensures var events := [S.Observing(env), S.Creating(acting)];
            var after := S.Run(cfg, w, events);
            && S.PossibleRun(cfg, w, events) && Current(env, after) && after.cr == RoundCR(cfg, env, acting, w)
            && Calm(cfg, env, after) && !R.Paused(cfg, after.cr)
            && LastOf(after, GetReleaseName(after.cr)).inspected == env.inspected.value
            && (A.Covered(env.inspected.value, q) ==> Authorized(after.api.store, ServiceAccount(cfg.saName, cfg.saNamespace), q))
  {
    var at, after := RoundCreates(cfg, env, acting, w);
    TwoCallsAreARun(cfg, env, acting, w, at, after);
    StaysCalm(cfg, env, env, w, after);
    if A.Covered(env.inspected.value, q) {
      var events := [S.Observing(env), S.Creating(acting)];
      var name := GetReleaseName(after.cr);
      assert name in after.releases && LastOf(after, name) in after.releases[name];
      S.PermissionBeforeRelease(cfg, w, events, name, LastOf(after, name), q);
    }
  }

  // ------------------------------------------------------------ definitions with a malformed status

  /** Without an answer from the resolver no handler gets through. */
  lemma NoAnswerNoProgress(cfg: R.Config, env: R.Env, w: R.World)
    requires RELEASE_NAME in w.cr.labels && !R.Paused(cfg, w.cr)
    requires Fetch(env.definitions, Wanted(w.cr.labels, w.cr.kind)).None?
    ensures R.Observe(cfg, env, w).Halt? && R.Create(cfg, env, w).Halt?
    ensures R.Update(cfg, env, w).Halt? && R.Delete(cfg, env, w).Halt?
  {
  }

  /** An active observation records the name and the definition, whatever faults it met and survived. */
  lemma ObserveRecords(cfg: R.Config, env: R.Env, w: R.World)
    requires R.Observe(cfg, env, w).Go? && !R.Paused(cfg, w.cr)
    ensures CalculateReleaseName(w.cr, cfg.safeReleaseName, env.draw).Some?
    ensures var mg, after := NamedCR(cfg, env, w.cr), R.Observe(cfg, env, w).w.cr;
            && Fetch(env.definitions, Wanted(mg.labels, mg.kind)).Some?
            && after.labels == WithDefinition(mg.labels, Fetch(env.definitions, Wanted(mg.labels, mg.kind)).value.definition)
            && after.kind == w.cr.kind && PAUSED_TIME !in after.annotations
  {
    ObserveStages(cfg, env, w);
  }

  lemma MalformedHintFails(ds: Definitions, labels: map<string, string>, kind: string)
    requires Resolves(ds, labels, kind) && !Answers(ds, labels, kind)
    ensures Fetch(ds, Wanted(WithDefinition(labels, Fetch(ds, Wanted(labels, kind)).value.definition), kind)).None?
  {
  }

  /** The condition on the definition is exact: after an observation that went well, what it asks for
      succeeds if and only if the status of the definition is well formed. A definition that is alone
      in the cluster gets through the first observation with a malformed one. */
  lemma RoundNeedsAWellFormedDefinition(cfg: R.Config, env: R.Env, acting: R.Env, w: R.World)
    requires w.api.faults == [] && R.ValidEnv(env) && Renders(cfg, env, w.cr.namespace) && SameInputs(env, acting)
    requires Resolves(env.definitions, w.cr.labels, w.cr.kind)
    requires R.Observe(cfg, env, w).Go? && !R.Paused(cfg, w.cr)
    requires CalculateReleaseName(w.cr, cfg.safeReleaseName, env.draw).Some? && Grantable(cfg, env, w, NameOf(cfg, env, w))
    ensures Round(cfg, env, acting, w).Go? <==>
            ChartVersionKind(Resolve(env.definitions, Wanted(w.cr.labels, w.cr.kind)).value).Some?
  {
    ObserveRecords(cfg, env, w);
    if Answers(env.definitions, w.cr.labels, w.cr.kind) {
      RoundCalm(cfg, env, acting, w);
    } else {
      KeysDiffer();
      var mg, s1 := NamedCR(cfg, env, w.cr), R.Observe(cfg, env, w);
      NameKeepsAnswer(env.definitions, w.cr.labels, w.cr.kind, CalculateReleaseName(w.cr, cfg.safeReleaseName, env.draw).value);
      MalformedHintFails(env.definitions, mg.labels, mg.kind);
      NoAnswerNoProgress(cfg, acting, s1.w);
    }
  }
}
