/** Publishing, polling, adopting and acknowledging, in every interleaving.

    A gateway polls in three steps: it fetches an envelope, adopts the snapshot unless it already
    runs it, and acknowledges. Drafts, publications, credential changes and heartbeats of anyone
    may come in between. The response is assumed to carry the snapshot's canonical text intact. */
module SnapshotProtocol {
  import opened Wrappers
  import opened SnapshotStore

  datatype Phase =
    | Idle
    | Fetched(id: Identity, snap: Runtime)
    | Adopted(id: Identity, snap: Runtime)
    | Refusing(id: Identity)               // the fetched snapshot does not build

  /** What a gateway remembers: the identity it last had acknowledged, and what it runs. */
  datatype Gateway = Gateway(recorded: Option<Identity>, running: Option<(nat, Runtime)>, phase: Phase)

  /** An acknowledgement as stored, with the tables and the gateway's snapshot at that moment. */
  datatype AckFact = AckFact(ack: Ack, db: Db, held: Option<Runtime>)

  datatype Sys = Sys(db: Db, gateways: map<GatewayId, Gateway>, history: seq<AckFact>)

  datatype Step =
    | DraftStep(declared: Declared, schema: nat)
    | PublishStep(declared: Declared, now: real)
    | RotateStep(account: AccountId, secret: int)
    | ReplaceStep(account: AccountId, secret: int)
    | AddStep(account: AccountId, secret: int)
    | McpStep(mcp: int)
    | HeartbeatStep(g: GatewayId, schemas: set<nat>, envelope: nat, now: real)
    | FetchStep(g: GatewayId, now: real, builds: bool)
    | AdoptStep(g: GatewayId)
    | AckStep(g: GatewayId, delivered: bool, answered: bool)

  predicate Enabled(s: Sys, step: Step) {
    match step
    case FetchStep(g, _, _) => g in s.gateways && s.gateways[g].phase.Idle?
    case AdoptStep(g) => g in s.gateways && s.gateways[g].phase.Fetched?
    case AckStep(g, _, _) => g in s.gateways && (s.gateways[g].phase.Adopted? || s.gateways[g].phase.Refusing?)
    case _ => true
  }

  const SCHEMAS: set<nat> := {1, 2}
  const ENVELOPE: nat := 2

  /** The tables after the snapshot route: a request that finds a version leaves a heartbeat. */
  function FetchDb(db: Db, g: GatewayId, now: real): Db {
    if MaxPublished(db) == 0 then db else Heartbeat(db, g, SCHEMAS, ENVELOPE, now)
  }

  function FetchPhase(db: Db, g: GatewayId, builds: bool): Phase {
    var r := Envelope(db, g);
    if r.Err? then Idle else if builds then Fetched(r.value.0, r.value.1) else Refusing(r.value.0)
  }

  function Adopt(gw: Gateway): Gateway
    requires gw.phase.Fetched?
  {
    if gw.recorded == Some(gw.phase.id) then gw.(phase := Idle)
    else gw.(running := Some((gw.phase.id.version, gw.phase.snap)), phase := Adopted(gw.phase.id, gw.phase.snap))
  }

  function AckOf(g: GatewayId, gw: Gateway): Ack
    requires gw.phase.Adopted? || gw.phase.Refusing?
  {
    Ack(g, gw.phase.id, gw.phase.Adopted?)
  }

  /** The gateway records the identity only when it learns that its adoption was stored. */
  function Acknowledged(gw: Gateway, stored: bool): Gateway {
    if gw.phase.Adopted? && stored then gw.(recorded := Some(gw.phase.id), phase := Idle) else gw.(phase := Idle)
  }

  function HeldBy(gw: Gateway): Option<Runtime> { if gw.running.Some? then Some(gw.running.value.1) else None }

  function NextDb(s: Sys, step: Step, policy: Policy): Db
    requires Enabled(s, step)
  {
    match step
    case DraftStep(declared, schema) => StoreDraft(s.db, declared, schema)
    case PublishStep(declared, now) => Publish(s.db, policy, declared, now).0
    case RotateStep(a, secret) => Rotate(s.db, a, secret)
    case ReplaceStep(a, secret) => Replace(s.db, a, secret)
    case AddStep(a, secret) => AddAccount(s.db, a, secret)
    case McpStep(mcp) => s.db.(mcp := mcp)
    case HeartbeatStep(g, schemas, envelope, now) => Heartbeat(s.db, g, schemas, envelope, now)
    case FetchStep(g, now, _) => FetchDb(s.db, g, now)
    case AdoptStep(_) => s.db
    case AckStep(g, delivered, _) => if delivered then PersistAck(s.db, AckOf(g, s.gateways[g])).0 else s.db
  }

  function NextGateways(s: Sys, step: Step): map<GatewayId, Gateway>
    requires Enabled(s, step)
  {
    match step
    case FetchStep(g, now, builds) => s.gateways[g := s.gateways[g].(phase := FetchPhase(FetchDb(s.db, g, now), g,
        builds))]
    case AdoptStep(g) => s.gateways[g := Adopt(s.gateways[g])]
    case AckStep(g, delivered, answered) =>
      var stored := delivered && AckFailure(s.db, AckOf(g, s.gateways[g])).None?;
      s.gateways[g := Acknowledged(s.gateways[g], stored && answered)]
    case _ => s.gateways
  }

  function NextHistory(s: Sys, step: Step): seq<AckFact>
    requires Enabled(s, step)
  {
    if step.AckStep? && step.delivered && AckFailure(s.db, AckOf(step.g, s.gateways[step.g])).None?
    then s.history + [AckFact(AckOf(step.g, s.gateways[step.g]), s.db, HeldBy(s.gateways[step.g]))]
    else s.history
  }

  function Next(s: Sys, step: Step, policy: Policy): Sys
    requires Enabled(s, step)
  {
    Sys(NextDb(s, step, policy), NextGateways(s, step), NextHistory(s, step))
  }

  predicate IsRun(s: Sys, run: seq<Step>, policy: Policy)
    decreases |run|
  {
    run == [] || (Enabled(s, run[0]) && IsRun(Next(s, run[0], policy), run[1..], policy))
  }

  function After(s: Sys, run: seq<Step>, policy: Policy): Sys
    requires IsRun(s, run, policy)
    decreases |run|
  {
    if run == [] then s else After(Next(s, run[0], policy), run[1..], policy)
  }

  /** Any tables, no acknowledgement stored yet, every gateway freshly started. */
  predicate IsStart(s: Sys) {
    && ValidDb(s.db) && s.db.acks == [] && s.history == []
    && forall g :: g in s.gateways ==> s.gateways[g] == Gateway(None, None, Idle)
  }

  /* ---- what time does to the tables ---- */

  /** Published rows are never changed, and revisions never fall. */
  ghost predicate Grows(a: Db, b: Db) {
    && (forall v :: IsPublished(a, v) ==> IsPublished(b, v) && b.versions[v] == a.versions[v])
    && MaxPublished(a) <= MaxPublished(b)
    && forall k :: k in a.credentials ==> k in b.credentials && a.credentials[k].revision <= b.credentials[k].revision
  }

  lemma {:induction false} SameTablesGrow(a: Db, b: Db)
    requires a.versions == b.versions && a.nextVersion == b.nextVersion
    requires forall k :: k in a.credentials ==>
               k in b.credentials && a.credentials[k].revision <= b.credentials[k].revision
    ensures Grows(a, b)
  {
    SamePublished(a, b, a.nextVersion);
  }

  lemma {:induction false} DraftGrows(db: Db, declared: Declared, schema: nat)
    requires ValidDb(db)
    ensures Grows(db, StoreDraft(db, declared, schema)) && ValidDb(StoreDraft(db, declared, schema))
  {
    var t := StoreDraft(db, declared, schema);
    var m := MaxPublished(db);
    if m > 0 { HighestIs(t, t.nextVersion, Published, m); }
  }

  lemma {:induction false} PublishGrows(db: Db, policy: Policy, declared: Declared, now: real)
    requires ValidDb(db)
    ensures Grows(db, Publish(db, policy, declared, now).0) && ValidDb(Publish(db, policy, declared, now).0)
  {
    PublishRaises(db, policy, declared, now);
    var (t, r) := Publish(db, policy, declared, now);
    if r.Ok? {
      PublicationDraftExists(db, declared);
      forall v: nat | IsPublished(db, v) ensures t.versions[v] == db.versions[v] { assert v <= MaxPublished(db); }
    }
  }

  lemma {:induction false} StepGrows(s: Sys, step: Step, policy: Policy)
    requires ValidDb(s.db) && Enabled(s, step)
    ensures Grows(s.db, NextDb(s, step, policy)) && ValidDb(NextDb(s, step, policy))
  {
    hide Grows;
    hide Publish;
    match step
    case DraftStep(declared, schema) => DraftGrows(s.db, declared, schema);
    case PublishStep(declared, now) => PublishGrows(s.db, policy, declared, now);
    case _ => SameTablesGrow(s.db, NextDb(s, step, policy));
  }

  /* ---- what a fetched snapshot stays tied to ---- */

  /** The identity names the snapshot: a published version, the digest of this very snapshot, and
      for v2 the version's own configuration with revisions not newer than those stored. */
  ghost predicate Names(db: Db, id: Identity, snap: Runtime) {
    && IsPublished(db, id.version) && id.runtime == OfRuntime(snap) && id.version <= MaxPublished(db)
    && (id.envelope >= 2 ==>
          && snap.Full? && id.schema == db.versions[id.version].schema
          && snap.declared == db.versions[id.version].declared && id.config == OfDeclared(snap.declared)
          && snap.credentials.Keys == snap.declared.accounts && id.credential == Some(RevisionsOf(snap.credentials))
          && forall a :: a in snap.credentials ==>
               a in db.credentials && snap.credentials[a].revision <= db.credentials[a].revision)
  }

  lemma {:induction false} NamesKept(a: Db, b: Db, id: Identity, snap: Runtime)
    requires Names(a, id, snap) && Grows(a, b)
    ensures Names(b, id, snap)
  {
  }

  lemma {:induction false} EnvelopeNames(db: Db, g: GatewayId)
    ensures Envelope(db, g).Ok? ==>
              var (id, snap) := Envelope(db, g).value;
              Names(db, id, snap) && id.version == MaxPublished(db) && (id.envelope == 1 || id.envelope == 2)
  {
  }

  predicate InFlight(gw: Gateway) { gw.phase.Fetched? || gw.phase.Adopted? }

  ghost predicate GatewayInv(db: Db, gw: Gateway) {
    && (InFlight(gw) ==> Names(db, gw.phase.id, gw.phase.snap))
    && (gw.phase.Adopted? ==> gw.running == Some((gw.phase.id.version, gw.phase.snap)))
    && (gw.running.Some? ==> gw.running.value.0 <= MaxPublished(db))
    && (gw.phase.Fetched? && gw.running.Some? ==> gw.running.value.0 <= gw.phase.id.version)
  }

  ghost predicate Inv(s: Sys) { ValidDb(s.db) && forall g :: g in s.gateways ==> GatewayInv(s.db, s.gateways[g]) }

  lemma {:induction false} GatewayKept(a: Db, b: Db, gw: Gateway)
    requires GatewayInv(a, gw) && Grows(a, b)
    ensures GatewayInv(b, gw)
  {
    hide Names;
    if InFlight(gw) { NamesKept(a, b, gw.phase.id, gw.phase.snap); }
  }

  lemma {:induction false} FetchKeeps(db: Db, g: GatewayId, gw: Gateway, builds: bool)
    requires GatewayInv(db, gw) && gw.phase.Idle?
    ensures GatewayInv(db, gw.(phase := FetchPhase(db, g, builds)))
  {
    hide Names;
    hide Envelope;
    EnvelopeNames(db, g);
  }

  lemma {:induction false} MovingGatewayKept(s: Sys, step: Step, policy: Policy)
    requires Inv(s) && Enabled(s, step) && (step.FetchStep? || step.AdoptStep? || step.AckStep?)
    ensures GatewayInv(NextDb(s, step, policy), NextGateways(s, step)[step.g])
  {
    hide Envelope;
    hide Grows;
    var db, gw := NextDb(s, step, policy), s.gateways[step.g];
    StepGrows(s, step, policy);
    GatewayKept(s.db, db, gw);
    if step.FetchStep? { FetchKeeps(db, step.g, gw, step.builds); }
  }

  lemma {:induction false} InvStep(s: Sys, step: Step, policy: Policy)
    requires Inv(s) && Enabled(s, step)
    ensures Inv(Next(s, step, policy))
  {
    hide GatewayInv;
    hide Grows;
    hide Envelope;
    hide NextDb;
    var t := Next(s, step, policy);
    StepGrows(s, step, policy);
    if step.FetchStep? || step.AdoptStep? || step.AckStep? { MovingGatewayKept(s, step, policy); }
    forall g | g in t.gateways ensures GatewayInv(t.db, t.gateways[g]) {
      if (step.FetchStep? || step.AdoptStep? || step.AckStep?) && g == step.g {
        assert t.gateways[g] == NextGateways(s, step)[step.g];
      } else {
        GatewayKept(s.db, t.db, s.gateways[g]);
      }
    }
  }

  /* ---- every stored acknowledgement is true ---- */

  /** At the moment it was stored, the version was published and its configuration with the secrets
      stored then was exactly the snapshot the gateway was running. */
  predicate TrueAck(f: AckFact) {
    f.ack.adopted && f.ack.id.envelope >= 2 ==>
      && IsPublished(f.db, f.ack.id.version)
      && f.held.Some? && Materialize(f.db, f.db.versions[f.ack.id.version].declared) == f.held
  }

  ghost predicate HistoryInv(s: Sys) {
    && |s.history| == |s.db.acks|
    && forall i :: 0 <= i < |s.history| ==> s.history[i].ack == s.db.acks[i] && TrueAck(s.history[i])
  }

  lemma {:induction false} StoredAckIsTrue(s: Sys, g: GatewayId)
    requires Inv(s) && g in s.gateways && (s.gateways[g].phase.Adopted? || s.gateways[g].phase.Refusing?)
    requires AckFailure(s.db, AckOf(g, s.gateways[g])).None?
    ensures TrueAck(AckFact(AckOf(g, s.gateways[g]), s.db, HeldBy(s.gateways[g])))
  {
    assert GatewayInv(s.db, s.gateways[g]);
  }

  lemma {:induction false} AcksStep(s: Sys, step: Step, policy: Policy)
    requires Enabled(s, step)
    ensures NextDb(s, step, policy).acks
            == if step.AckStep? && step.delivered && AckFailure(s.db, AckOf(step.g, s.gateways[step.g])).None?
               then s.db.acks + [AckOf(step.g, s.gateways[step.g])] else s.db.acks
  {
    hide AckFailure;
  }

  lemma {:induction false} HistoryStep(s: Sys, step: Step, policy: Policy)
    requires Inv(s) && Enabled(s, step) && HistoryInv(s)
    ensures HistoryInv(Next(s, step, policy))
  {
    hide AckFailure;
    hide NextDb;
    hide TrueAck;
    AcksStep(s, step, policy);
    if step.AckStep? && step.delivered && AckFailure(s.db, AckOf(step.g, s.gateways[step.g])).None? {
      StoredAckIsTrue(s, step.g);
    }
  }

  lemma {:induction false} RunKeeps(s: Sys, run: seq<Step>, policy: Policy)
    requires IsRun(s, run, policy) && Inv(s) && HistoryInv(s)
    ensures Inv(After(s, run, policy)) && HistoryInv(After(s, run, policy))
    decreases |run|
  {
    hide Next;
    hide Inv;
    hide HistoryInv;
    if run != [] {
      InvStep(s, run[0], policy);
      HistoryStep(s, run[0], policy);
      RunKeeps(Next(s, run[0], policy), run[1..], policy);
    }
  }

  lemma {:induction false} StartKeeps(s: Sys)
    requires IsStart(s)
    ensures Inv(s) && HistoryInv(s)
  {
  }

  /** In every run, every stored v2 "adopted" acknowledgement named a version that was published
      when it was stored and whose materialisation then was the snapshot the gateway held. */
  lemma {:induction false} EveryAckIsTrue(s: Sys, run: seq<Step>, policy: Policy, i: nat)
    requires IsStart(s) && IsRun(s, run, policy) && i < |After(s, run, policy).db.acks|
    ensures var t := After(s, run, policy);
            |t.history| == |t.db.acks| && t.history[i].ack == t.db.acks[i] && TrueAck(t.history[i])
  {
    StartKeeps(s);
    RunKeeps(s, run, policy);
  }

  /** The check and the insert of an acknowledgement are separate queries. What passed the check is
      still true when it is inserted exactly if the stored secrets give the same snapshot then. */
  lemma {:induction false} InsertedTrueIff(db: Db, later: Db, ack: Ack, held: Option<Runtime>)
    requires ack.adopted && ack.id.envelope >= 2 && AckFailure(db, ack).None? && TrueAck(AckFact(ack, db, held))
    requires Grows(db, later)
    ensures var declared := db.versions[ack.id.version].declared;
            TrueAck(AckFact(ack, later, held)) <==> Materialize(later, declared) == Materialize(db, declared)
  {
    assert IsPublished(db, ack.id.version);
  }

  /** A rotation between the two makes the stored acknowledgement untrue. */
  lemma {:induction false} RotationOvertakesInsert(db: Db, ack: Ack, held: Option<Runtime>, a: AccountId, secret: int)
    requires ack.adopted && ack.id.envelope >= 2 && AckFailure(db, ack).None? && TrueAck(AckFact(ack, db, held))
    requires a in db.versions[ack.id.version].declared.accounts
    ensures !TrueAck(AckFact(ack, Rotate(db, a, secret), held))
  {
    var later, declared := Rotate(db, a, secret), db.versions[ack.id.version].declared;
    SameTablesGrow(db, later);
    InsertedTrueIff(db, later, ack, held);
    assert Materialize(db, declared).value.credentials[a] == db.credentials[a];
    var again := Materialize(later, declared);
    assert again.Some? ==> again.value.credentials[a] == later.credentials[a];
  }

  /* ---- when an acknowledgement is accepted ---- */

  /** In every reachable state: a v2 adoption is accepted exactly when the gateway's capability on
      record still covers it and the stored secrets still give the snapshot the gateway holds. */
  lemma {:induction false} AcceptedIffUnchanged(s: Sys, g: GatewayId)
    requires Inv(s) && g in s.gateways && s.gateways[g].phase.Adopted? && s.gateways[g].phase.id.envelope >= 2
    ensures var (id, snap) := (s.gateways[g].phase.id, s.gateways[g].phase.snap);
            AckFailure(s.db, AckOf(g, s.gateways[g])).None?
            <==> && g in s.db.instances && s.db.instances[g].envelope >= 2 && id.schema in s.db.instances[g].schemas
                 && Materialize(s.db, snap.declared) == Some(snap)
  {
    var (id, snap) := (s.gateways[g].phase.id, s.gateways[g].phase.snap);
    assert GatewayInv(s.db, s.gateways[g]);
    DigestsAgree(s.db, snap.declared);
  }

  /** The gateway is between fetch and acknowledgement with a credential that has been rotated. */
  predicate Stale(s: Sys, g: GatewayId, a: AccountId) {
    && g in s.gateways && InFlight(s.gateways[g]) && s.gateways[g].phase.id.envelope >= 2
    && var snap := s.gateways[g].phase.snap;
       && snap.Full? && a in snap.credentials && a in s.db.credentials
       && snap.credentials[a].revision < s.db.credentials[a].revision
  }

  lemma {:induction false} RotationMakesStale(s: Sys, g: GatewayId, a: AccountId, secret: int, policy: Policy)
    requires Inv(s) && g in s.gateways && InFlight(s.gateways[g]) && s.gateways[g].phase.id.envelope >= 2
    requires a in s.gateways[g].phase.snap.declared.accounts
    ensures Stale(Next(s, RotateStep(a, secret), policy), g, a)
  {
    assert GatewayInv(s.db, s.gateways[g]);
  }

  /** Others may move, and the gateway may adopt; it may also find that it already runs this. */
  predicate StaleOrDone(s: Sys, g: GatewayId, a: AccountId) {
    Stale(s, g, a) || (g in s.gateways && s.gateways[g].phase.Idle?)
  }

  predicate PollsNot(step: Step, g: GatewayId) { !((step.FetchStep? || step.AckStep?) && step.g == g) }

  lemma {:induction false} StaleStays(s: Sys, step: Step, policy: Policy, g: GatewayId, a: AccountId)
    requires Inv(s) && Enabled(s, step) && StaleOrDone(s, g, a) && PollsNot(step, g)
    ensures var t := Next(s, step, policy);
            StaleOrDone(t, g, a) && t.gateways[g].recorded == s.gateways[g].recorded
  {
    hide Publish;
    hide Envelope;
    hide AckFailure;
    hide NextDb;
    StepGrows(s, step, policy);
  }

  lemma {:induction false} StaleRun(s: Sys, run: seq<Step>, policy: Policy, g: GatewayId, a: AccountId)
    requires IsRun(s, run, policy) && Inv(s) && StaleOrDone(s, g, a)
    requires forall i :: 0 <= i < |run| ==> PollsNot(run[i], g)
    ensures var t := After(s, run, policy);
            Inv(t) && StaleOrDone(t, g, a) && t.gateways[g].recorded == s.gateways[g].recorded
    decreases |run|
  {
    hide Next;
    hide Inv;
    hide Stale;
    if run != [] {
      InvStep(s, run[0], policy);
      StaleStays(s, run[0], policy, g, a);
      StaleRun(Next(s, run[0], policy), run[1..], policy, g, a);
    }
  }

  lemma {:induction false} StaleIsRefused(s: Sys, g: GatewayId, a: AccountId)
    requires Inv(s) && Stale(s, g, a) && s.gateways[g].phase.Adopted?
    ensures AckFailure(s.db, AckOf(g, s.gateways[g])).Some?
  {
    AcceptedIffUnchanged(s, g);
    var snap := s.gateways[g].phase.snap;
    var now := Materialize(s.db, snap.declared);
    assert now.Some? ==> now.value.credentials[a] == s.db.credentials[a];
  }

  /** A rotation of one of the snapshot's accounts between fetch and acknowledgement, with any other
      steps before and after it, makes the acknowledgement refused: nothing is stored and the
      identity the gateway has on record stays as it was. */
  lemma {:induction false} RotationRefusesAck(s: Sys, a: AccountId, secret: int, run: seq<Step>, policy: Policy,
                                              g: GatewayId,
                           answered: bool)
    requires Inv(s) && g in s.gateways && InFlight(s.gateways[g]) && s.gateways[g].phase.id.envelope >= 2
    requires a in s.gateways[g].phase.snap.declared.accounts
    requires IsRun(Next(s, RotateStep(a, secret), policy), run, policy)
    requires forall i :: 0 <= i < |run| ==> PollsNot(run[i], g)
    requires Enabled(After(Next(s, RotateStep(a, secret), policy), run, policy), AckStep(g, true, answered))
    ensures var t := After(Next(s, RotateStep(a, secret), policy), run, policy);
            var u := Next(t, AckStep(g, true, answered), policy);
            && u.db == t.db && u.history == t.history
            && u.gateways[g].recorded == s.gateways[g].recorded && u.gateways[g].phase.Idle?
  {
    hide AckFailure;
    var r := Next(s, RotateStep(a, secret), policy);
    RotationMakesStale(s, g, a, secret, policy);
    InvStep(s, RotateStep(a, secret), policy);
    assert r.gateways == s.gateways;
    StaleRun(r, run, policy, g, a);
    StaleIsRefused(After(r, run, policy), g, a);
  }

  /* ---- convergence ---- */

  /** One undisturbed poll: fetch, adopt, and acknowledge if there was something to adopt or to
      refuse. */
  function Poll(s: Sys, g: GatewayId, now: real, builds: bool, policy: Policy): Sys
    requires Enabled(s, FetchStep(g, now, builds))
  {
    var fetched := Next(s, FetchStep(g, now, builds), policy);
    if fetched.gateways[g].phase.Idle? then fetched
    else if fetched.gateways[g].phase.Refusing? then Next(fetched, AckStep(g, true, true), policy)
    else
      var adopted := Next(fetched, AdoptStep(g), policy);
      if !adopted.gateways[g].phase.Adopted? then adopted else Next(adopted, AckStep(g, true, true), policy)
  }

  /** What was just fetched is accepted exactly when its schema is one the gateway advertises. */
  lemma {:induction false} FetchedIsAccepted(db: Db, g: GatewayId, id: Identity, snap: Runtime)
    requires MaxPublished(db) > 0 && g in db.instances
    requires db.instances[g] == Instance(SCHEMAS, ENVELOPE, db.instances[g].lastSeen)
    requires Envelope(db, g) == Ok((id, snap))
    ensures AckFailure(db, Ack(g, id, true)).None? <==> db.versions[MaxPublished(db)].schema <= 2
  {
    DigestsAgree(db, snap.declared);
  }

  /** What an undisturbed poll of a deliverable snapshot achieves: the gateway has the envelope's
      identity on record. It runs the envelope's snapshot exactly if it did not have that identity on
      record before, or ran the snapshot already. */
  lemma {:induction false} PollRecords(s: Sys, g: GatewayId, now: real, policy: Policy)
    requires Inv(s) && Enabled(s, FetchStep(g, now, true)) && Deliverable(s.db, g, now)
    ensures var t := Poll(s, g, now, true, policy);
            var id := Envelope(FetchDb(s.db, g, now), g).value.0;
            && t.gateways[g].recorded == Some(id) && t.gateways[g].phase.Idle?
            && (s.gateways[g].recorded == Some(id) ==> t.gateways[g] == s.gateways[g] && t.db.acks == s.db.acks)
            && (var snap := Some(Envelope(FetchDb(s.db, g, now), g).value.1);
                HeldBy(t.gateways[g]) == snap
                <==> s.gateways[g].recorded != Some(id) || HeldBy(s.gateways[g]) == snap)
            && t.db.versions == s.db.versions && t.db.credentials == s.db.credentials && t.db.mcp == s.db.mcp
            && t.db.nextVersion == s.db.nextVersion
  {
    hide Envelope;
    hide AckFailure;
    var db := FetchDb(s.db, g, now);
    var (id, snap) := Envelope(db, g).value;
    DeliverableAccepted(s.db, g, now);
    assert NextDb(s, FetchStep(g, now, true), policy) == db;
  }

  /** The highest published version exists, is of a schema the gateway knows, and all its accounts
      have credentials. */
  predicate Deliverable(db: Db, g: GatewayId, now: real) {
    MaxPublished(db) > 0 && db.versions[MaxPublished(db)].schema <= 2 && Envelope(FetchDb(db, g, now), g).Ok?
  }

  lemma {:induction false} DeliverableAccepted(db: Db, g: GatewayId, now: real)
    requires Deliverable(db, g, now)
    ensures var (id, _) := Envelope(FetchDb(db, g, now), g).value;
            AckFailure(FetchDb(db, g, now), Ack(g, id, true)).None?
  {
    hide Envelope;
    hide AckFailure;
    var d := FetchDb(db, g, now);
    SamePublished(db, d, db.nextVersion);
    var (id, snap) := Envelope(d, g).value;
    FetchedIsAccepted(d, g, id, snap);
  }

  lemma {:induction false} EnvelopeSame(a: Db, b: Db, g: GatewayId)
    requires a.versions == b.versions && a.nextVersion == b.nextVersion && a.credentials == b.credentials
    requires a.mcp == b.mcp
    requires g in a.instances && g in b.instances && a.instances[g].schemas == b.instances[g].schemas
    requires a.instances[g].envelope == b.instances[g].envelope
    ensures Envelope(a, g) == Envelope(b, g)
  {
    SamePublished(a, b, a.nextVersion);
  }

  /** With no change in between, the poll after a poll is a no-op: same record, same running snapshot,
      nothing acknowledged. */
  lemma {:induction false} PollsConverge(s: Sys, g: GatewayId, now: real, later: real, policy: Policy)
    requires Inv(s) && Enabled(s, FetchStep(g, now, true)) && Deliverable(s.db, g, now)
    ensures var t := Poll(s, g, now, true, policy);
            && Enabled(t, FetchStep(g, later, true))
            && var u := Poll(t, g, later, true, policy);
               u.gateways[g] == t.gateways[g] && u.db.acks == t.db.acks
  {
    hide Poll;
    hide Envelope;
    PollRecords(s, g, now, policy);
    PollKeepsInv(s, g, now, policy);
    var t := Poll(s, g, now, true, policy);
    SamePublished(s.db, t.db, s.db.nextVersion);
    EnvelopeSame(FetchDb(s.db, g, now), FetchDb(t.db, g, later), g);
    PollRecords(t, g, later, policy);
  }

  lemma {:induction false} PollKeepsInv(s: Sys, g: GatewayId, now: real, policy: Policy)
    requires Inv(s) && Enabled(s, FetchStep(g, now, true))
    ensures Inv(Poll(s, g, now, true, policy)) && g in Poll(s, g, now, true, policy).gateways
  {
    hide Inv;
    hide NextDb;
    hide Envelope;
    hide AckFailure;
    var fetched := Next(s, FetchStep(g, now, true), policy);
    InvStep(s, FetchStep(g, now, true), policy);
    if fetched.gateways[g].phase.Fetched? {
      var adopted := Next(fetched, AdoptStep(g), policy);
      InvStep(fetched, AdoptStep(g), policy);
      if adopted.gateways[g].phase.Adopted? { InvStep(adopted, AckStep(g, true, true), policy); }
    }
  }

  /* ---- versions only go up ---- */

  function RunningVersion(gw: Gateway): nat { if gw.running.Some? then gw.running.value.0 else 0 }

  lemma {:induction false} VersionStep(s: Sys, step: Step, policy: Policy, g: GatewayId)
    requires Inv(s) && Enabled(s, step) && g in s.gateways
    ensures g in Next(s, step, policy).gateways
    ensures RunningVersion(s.gateways[g]) <= RunningVersion(Next(s, step, policy).gateways[g])
  {
    hide Envelope;
    hide NextDb;
    assert GatewayInv(s.db, s.gateways[g]);
  }

  /** In every run, what a gateway runs never goes back to a lower version, published versions stay
      published, and a version passed over by publication is never published. */
  lemma {:induction false} VersionsOnlyGoUp(s: Sys, run: seq<Step>, policy: Policy, g: GatewayId, v: nat)
    requires IsRun(s, run, policy) && Inv(s) && g in s.gateways
    ensures var t := After(s, run, policy);
            && Inv(t) && g in t.gateways && RunningVersion(s.gateways[g]) <= RunningVersion(t.gateways[g])
            && MaxPublished(s.db) <= MaxPublished(t.db)
            && (v <= MaxPublished(s.db) ==> (IsPublished(t.db, v) <==> IsPublished(s.db, v)))
    decreases |run|
  {
    hide Next;
    hide Inv;
    hide MaxPublished;
    hide IsPublished;
    if run != [] {
      var n := Next(s, run[0], policy);
      InvStep(s, run[0], policy);
      VersionStep(s, run[0], policy, g);
      PublishedStep(s, run[0], policy, v);
      VersionsOnlyGoUp(n, run[1..], policy, g, v);
    }
  }

  lemma {:induction false} PublishedStep(s: Sys, step: Step, policy: Policy, v: nat)
    requires Inv(s) && Enabled(s, step)
    ensures var t := Next(s, step, policy);
            && MaxPublished(s.db) <= MaxPublished(t.db)
            && (v <= MaxPublished(s.db) ==> (IsPublished(t.db, v) <==> IsPublished(s.db, v)))
  {
    hide Publish;
    hide MaxPublished;
    StepGrows(s, step, policy);
    if step.PublishStep? { PublishRaises(s.db, policy, step.declared, step.now); }
    if step.DraftStep? { assert v <= MaxPublished(s.db) ==> v < s.db.nextVersion by { MaxBelowNext(s.db); } }
  }

  lemma {:induction false} MaxBelowNext(db: Db)
    requires ValidDb(db)
    ensures MaxPublished(db) < db.nextVersion
  {
  }

  /* ---- the first v2 publication ---- */

  /** No v2 version is published and no gateway has acknowledged one. */
  ghost predicate BeforeV2(s: Sys) {
    && (forall v :: IsPublished(s.db, v) ==> s.db.versions[v].schema < 2)
    && forall i :: 0 <= i < |s.db.acks| ==> s.db.acks[i].id.envelope < 2 || s.db.acks[i].id.schema < 2
  }

  /** With no v2 acknowledgement stored, the gate opens exactly when it asks nobody. */
  lemma {:induction false} FirstV2Gate(db: Db, policy: Policy, now: real)
    requires forall i :: 0 <= i < |db.acks| ==> db.acks[i].id.envelope < 2 || db.acks[i].id.schema < 2
    ensures V2Publishable(db, policy, now) <==> policy.minActive == 0 && Active(db, policy, now) == {}
  {
    var active := Active(db, policy, now);
    if active != {} {
      var g :| g in active;
      assert !SpeaksV2(db, g);
    }
  }

  /** The publication of a v2 version with no minimum and no active gateway. */
  predicate StartsV2(s: Sys, step: Step, policy: Policy) {
    && step.PublishStep? && policy.minActive == 0 && Active(s.db, policy, step.now) == {}
    && var (d, v) := PublicationDraft(s.db, step.declared);
       v in d.versions && d.versions[v].schema >= 2
  }

  lemma {:induction false} FirstV2Publication(s: Sys, declared: Declared, now: real, policy: Policy)
    requires BeforeV2(s)
    ensures BeforeV2(Next(s, PublishStep(declared, now), policy)) <==> !StartsV2(s, PublishStep(declared, now), policy)
  {
    hide V2Publishable;
    hide HighestBelow;
    PublicationDraftExists(s.db, declared);
    var (d, v) := PublicationDraft(s.db, declared);
    assert Active(d, policy, now) == Active(s.db, policy, now);
    FirstV2Gate(d, policy, now);
    var t := Next(s, PublishStep(declared, now), policy);
    if RequiresV2(d.versions[v]) && !V2Publishable(d, policy, now) {
      assert t.db == s.db;
    } else {
      assert t.db.versions == d.versions[v := d.versions[v].(status := Published)];
      assert IsPublished(t.db, v);
    }
  }

  /** One step ends the time before v2 exactly if it is such a publication. */
  lemma {:induction false} V2StartsIff(s: Sys, step: Step, policy: Policy)
    requires Enabled(s, step) && BeforeV2(s)
    ensures BeforeV2(Next(s, step, policy)) <==> !StartsV2(s, step, policy)
  {
    hide Envelope;
    hide Publish;
    if step.PublishStep? {
      FirstV2Publication(s, step.declared, step.now, policy);
    } else {
      AcksStep(s, step, policy);
    }
  }

  lemma {:induction false} V2StaysStarted(s: Sys, step: Step, policy: Policy)
    requires ValidDb(s.db) && Enabled(s, step) && !BeforeV2(s)
    ensures !BeforeV2(Next(s, step, policy))
  {
    hide NextDb;
    hide AckFailure;
    StepGrows(s, step, policy);
    AcksStep(s, step, policy);
    var t := Next(s, step, policy);
    if v :| IsPublished(s.db, v) && s.db.versions[v].schema >= 2 {
      assert IsPublished(t.db, v);
    } else {
      var i :| 0 <= i < |s.db.acks| && s.db.acks[i].id.envelope >= 2 && s.db.acks[i].id.schema >= 2;
      assert t.db.acks[i] == s.db.acks[i];
    }
  }

  predicate NeverStartsV2(s: Sys, run: seq<Step>, policy: Policy)
    requires IsRun(s, run, policy)
    decreases |run|
  {
    run == [] || (!StartsV2(s, run[0], policy) && NeverStartsV2(Next(s, run[0], policy), run[1..], policy))
  }

  lemma {:induction false} V2StaysStartedInRun(s: Sys, run: seq<Step>, policy: Policy)
    requires ValidDb(s.db) && IsRun(s, run, policy) && !BeforeV2(s)
    ensures !BeforeV2(After(s, run, policy))
    decreases |run|
  {
    hide Next;
    hide BeforeV2;
    if run != [] {
      V2StaysStarted(s, run[0], policy);
      assert ValidDb(Next(s, run[0], policy).db) by { NextIsValid(s, run[0], policy); }
      V2StaysStartedInRun(Next(s, run[0], policy), run[1..], policy);
    }
  }

  lemma {:induction false} NextIsValid(s: Sys, step: Step, policy: Policy)
    requires ValidDb(s.db) && Enabled(s, step)
    ensures ValidDb(Next(s, step, policy).db)
  {
    StepGrows(s, step, policy);
  }

  /** In every run from tables without v2, a v2 version is published, or acknowledged, exactly if the
      run holds a publication of one with no minimum set and no gateway active: otherwise publication
      waits for a v2 acknowledgement, which waits for a v2 publication. */
  lemma {:induction false} V2AppearsIff(s: Sys, run: seq<Step>, policy: Policy)
    requires ValidDb(s.db) && IsRun(s, run, policy) && BeforeV2(s)
    ensures BeforeV2(After(s, run, policy)) <==> NeverStartsV2(s, run, policy)
    decreases |run|
  {
    hide Next;
    hide BeforeV2;
    hide StartsV2;
    if run != [] {
      V2StartsIff(s, run[0], policy);
      NextIsValid(s, run[0], policy);
      if StartsV2(s, run[0], policy) {
        V2StaysStartedInRun(Next(s, run[0], policy), run[1..], policy);
      } else {
        V2AppearsIff(Next(s, run[0], policy), run[1..], policy);
      }
    }
  }

  /** So with a minimum of one active gateway, the default, no run ever publishes one. */
  lemma {:induction false} V2NeverStarts(s: Sys, run: seq<Step>, policy: Policy)
    requires IsRun(s, run, policy) && BeforeV2(s) && policy.minActive >= 1
    ensures BeforeV2(After(s, run, policy))
    decreases |run|
  {
    hide Next;
    hide BeforeV2;
    if run != [] {
      V2StartsIff(s, run[0], policy);
      V2NeverStarts(Next(s, run[0], policy), run[1..], policy);
    }
  }

  /* ---- the gateway's side ---- */

  /** The poller: the recorded identity is its loop variable, the running snapshot its effect. */
  class Poller {
    const g: GatewayId
    var recorded: Option<Identity>
    var running: Option<(nat, Runtime)>

    ghost function View(): Gateway
      reads this
    {
      Gateway(recorded, running, Idle)
    }

    constructor (g: GatewayId)
      ensures this.g == g && View() == Gateway(None, None, Idle)
    {
      this.g := g;
      recorded, running := None, None;
    }

    /** One round against a control plane that answers and that nobody else uses meanwhile: a
        heartbeat, then exactly one poll. */
    method AdoptOnce(cp: ControlPlane, now: real, builds: bool, policy: Policy)
      modifies this, cp
      ensures var s := Sys(Heartbeat(old(cp.View()), g, SCHEMAS, ENVELOPE, now), map[g := old(View())], []);
              var t := Poll(s, g, now, builds, policy);
              View() == t.gateways[g] && cp.View() == t.db
      ensures g in cp.instances && cp.instances[g] == Instance({1, 2}, 2, now)
    {
      hide Envelope;
      hide Poll;
      hide PersistAck;
      cp.UpsertGatewayHeartbeat(g, SCHEMAS, ENVELOPE, now);
      PollCases(cp.View(), g, View(), now, builds, policy);
      var r := cp.SnapshotEnvelope(g, SCHEMAS, ENVELOPE, now);
      NothingPublished(cp.View(), g);
      if r.Err? { return; }
      var (id, snap) := r.value;
      if !builds {
        var _ := cp.PersistGatewayAck(Ack(g, id, false));
        return;
      }
      if recorded == Some(id) { return; }
      running := Some((id.version, snap));
      var failure := cp.PersistGatewayAck(Ack(g, id, true));
      if failure.Some? { return; }
      recorded := Some(id);
    }
  }

  /** What one poll does, case by case. */
  lemma {:induction false} PollCases(db: Db, g: GatewayId, gw: Gateway, now: real, builds: bool, policy: Policy)
    requires gw.phase.Idle?
    ensures var d := FetchDb(db, g, now);
            var r, t := Envelope(d, g), Poll(Sys(db, map[g := gw], []), g, now, builds, policy);
            if r.Err? then t.db == d && t.gateways[g] == gw
            else
              var (id, snap) := r.value;
              if !builds then t.db == PersistAck(d, Ack(g, id, false)).0 && t.gateways[g] == gw
              else if gw.recorded == Some(id) then t.db == d && t.gateways[g] == gw
              else
                var (stored, failure) := PersistAck(d, Ack(g, id, true));
                && t.db == stored
                && t.gateways[g] == Gateway(if failure.None? then Some(id)
                    else gw.recorded, Some((id.version, snap)), Idle)
  {
    hide Envelope;
    hide AckFailure;
    hide FetchDb;
  }

  lemma {:induction false} NothingPublished(db: Db, g: GatewayId)
    ensures MaxPublished(db) == 0 ==> Envelope(db, g) == Err(NotFound)
  {
  }
}
