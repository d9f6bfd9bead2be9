/** What a gateway runs against what it has on record. A snapshot is adopted before it is
    acknowledged, and a failed acknowledgement keeps the old record: the two can part. */
module SnapshotRecords {
  import opened Wrappers
  import opened SnapshotStore
  import opened SnapshotProtocol

  /* ---- identities and what they name ---- */

  /** The identity of a snapshot of a version. */
  function IdentityOf(v: nat, schema: nat, r: Runtime): Identity {
    if r.Full? then Identity(v, schema, OfDeclared(r.declared), Some(RevisionsOf(r.credentials)), OfRuntime(r), 2)
    else Identity(v, 1, OfRuntime(r), None, OfRuntime(r), 1)
  }

  predicate Issued(db: Db, id: Identity, r: Runtime) {
    IsPublished(db, id.version) && id == IdentityOf(id.version, db.versions[id.version].schema, r)
  }

  lemma {:induction false} EnvelopeIssued(db: Db, g: GatewayId)
    ensures Envelope(db, g).Ok? ==> Issued(db, Envelope(db, g).value.0, Envelope(db, g).value.1)
  {
  }

  lemma {:induction false} IssuedKept(a: Db, b: Db, id: Identity, r: Runtime)
    requires Issued(a, id, r) && Grows(a, b)
    ensures Issued(b, id, r)
  {
  }

  /** The gateway runs exactly what an identity names. */
  predicate Runs(gw: Gateway, id: Identity) {
    id.runtime.OfRuntime? && gw.running == Some((id.version, id.runtime.runtime))
  }

  /** What runs is what is on record, if anything is. */
  predicate InTune(gw: Gateway) { gw.recorded.None? || Runs(gw, gw.recorded.value) }

  predicate RecordInv(db: Db, gw: Gateway) {
    && (InFlight(gw) ==> Issued(db, gw.phase.id, gw.phase.snap))
    && (gw.phase.Adopted? ==> gw.running == Some((gw.phase.id.version, gw.phase.snap)))
    && (gw.recorded.Some? ==>
          gw.recorded.value.runtime.OfRuntime? && Issued(db, gw.recorded.value, gw.recorded.value.runtime.runtime))
  }

  lemma {:induction false} RecordKept(a: Db, b: Db, gw: Gateway)
    requires RecordInv(a, gw) && Grows(a, b)
    ensures RecordInv(b, gw)
  {
    hide Issued;
    if InFlight(gw) { IssuedKept(a, b, gw.phase.id, gw.phase.snap); }
    if gw.recorded.Some? { IssuedKept(a, b, gw.recorded.value, gw.recorded.value.runtime.runtime); }
  }

  lemma {:induction false} RecordStep(s: Sys, step: Step, policy: Policy, g: GatewayId)
    requires ValidDb(s.db) && Enabled(s, step) && g in s.gateways && RecordInv(s.db, s.gateways[g])
    ensures g in Next(s, step, policy).gateways
    ensures RecordInv(Next(s, step, policy).db, Next(s, step, policy).gateways[g])
  {
    hide Grows;
    hide Envelope;
    hide AckFailure;
    var t := Next(s, step, policy);
    StepGrows(s, step, policy);
    RecordKept(s.db, t.db, s.gateways[g]);
    hide NextDb;
    if step.FetchStep? && step.g == g {
      FetchedDb(s, step, policy);
      EnvelopeIssued(t.db, g);
    }
  }

  lemma {:induction false} FetchedDb(s: Sys, step: Step, policy: Policy)
    requires Enabled(s, step) && step.FetchStep?
    ensures NextDb(s, step, policy) == FetchDb(s.db, step.g, step.now)
  {
  }

  /* ---- when they part and meet ---- */

  /** The gateway takes over a snapshot it does not have on record. */
  predicate Adopts(s: Sys, step: Step, g: GatewayId) {
    && step == AdoptStep(g) && g in s.gateways && s.gateways[g].phase.Fetched?
    && s.gateways[g].recorded != Some(s.gateways[g].phase.id)
  }

  /** The adoption is stored, and the gateway learns it. */
  predicate Confirms(s: Sys, step: Step, g: GatewayId) {
    && step == AckStep(g, true, true) && g in s.gateways && s.gateways[g].phase.Adopted?
    && AckFailure(s.db, AckOf(g, s.gateways[g])).None?
  }

  lemma {:induction false} IdentityDetermined(db: Db, a: Identity, b: Identity)
    requires a.runtime.OfRuntime? && b.runtime.OfRuntime? && a.version == b.version && a.runtime == b.runtime
    requires Issued(db, a, a.runtime.runtime) && Issued(db, b, b.runtime.runtime)
    ensures a == b
  {
  }

  /** One step: an adoption parts what runs from what is on record, its stored and answered
      acknowledgement brings them together, and nothing else changes how they stand. */
  lemma {:induction false} TuneStep(s: Sys, step: Step, policy: Policy, g: GatewayId)
    requires ValidDb(s.db) && Enabled(s, step) && g in s.gateways && RecordInv(s.db, s.gateways[g])
    ensures var gw, hw := s.gateways[g], Next(s, step, policy).gateways[g];
            InTune(hw) <==> if Adopts(s, step, g) then gw.recorded.None?
                            else if Confirms(s, step, g) then true
                            else InTune(gw)
  {
    hide NextDb;
    hide Envelope;
    hide AckFailure;
    hide Issued;
    var gw := s.gateways[g];
    if Adopts(s, step, g) && gw.recorded.Some? {
      var id, kept := gw.phase.id, gw.recorded.value;
      assert id.runtime == OfRuntime(gw.phase.snap) by { IssuedRuntime(s.db, id, gw.phase.snap); }
      if id.version == kept.version && id.runtime == kept.runtime { IdentityDetermined(s.db, id, kept); }
    }
    if step.AckStep? && step.g == g && gw.phase.Adopted? { IssuedRuntime(s.db, gw.phase.id, gw.phase.snap); }
  }

  lemma {:induction false} IssuedRuntime(db: Db, id: Identity, r: Runtime)
    requires Issued(db, id, r)
    ensures id.runtime == OfRuntime(r)
  {
  }

  /** Whether the last adoption of the run has been confirmed since; `sofar` if there is none. */
  function LastConfirmed(s: Sys, run: seq<Step>, policy: Policy, g: GatewayId, sofar: bool): bool
    requires IsRun(s, run, policy)
    decreases |run|
  {
    if run == [] then sofar
    else
      LastConfirmed(Next(s, run[0], policy), run[1..], policy, g,
                    if Adopts(s, run[0], g) then false else if Confirms(s, run[0], g) then true else sofar)
  }

  lemma {:induction false} TuneRun(s: Sys, run: seq<Step>, policy: Policy, g: GatewayId, sofar: bool)
    requires IsRun(s, run, policy) && ValidDb(s.db) && g in s.gateways && RecordInv(s.db, s.gateways[g])
    requires s.gateways[g].recorded.Some? ==> (InTune(s.gateways[g]) <==> sofar)
    ensures var t := After(s, run, policy);
            && ValidDb(t.db) && g in t.gateways && RecordInv(t.db, t.gateways[g])
            && (t.gateways[g].recorded.Some? ==> (InTune(t.gateways[g]) <==> LastConfirmed(s, run, policy, g, sofar)))
    decreases |run|
  {
    hide RecordInv;
    hide NextDb;
    hide Adopts;
    hide Confirms;
    if run != [] {
      var step, t := run[0], Next(s, run[0], policy);
      RecordStep(s, step, policy, g);
      NextIsValid(s, step, policy);
      TuneStep(s, step, policy, g);
      RecordedStep(s, step, policy, g);
      TuneRun(t, run[1..], policy, g,
              if Adopts(s, step, g) then false else if Confirms(s, step, g) then true else sofar);
    }
  }

  lemma {:induction false} RecordedStep(s: Sys, step: Step, policy: Policy, g: GatewayId)
    requires Enabled(s, step) && g in s.gateways
    ensures !Confirms(s, step, g) || Adopts(s, step, g) ==>
              Next(s, step, policy).gateways[g].recorded == s.gateways[g].recorded
  {
    hide NextDb;
    hide Envelope;
    hide AckFailure;
  }

  /** In every run, a gateway with something on record runs exactly that if and only if its last
      adoption has been stored and answered since. */
  lemma {:induction false} RunsRecordIff(s: Sys, run: seq<Step>, policy: Policy, g: GatewayId)
    requires IsStart(s) && IsRun(s, run, policy) && g in s.gateways
    ensures var t := After(s, run, policy);
            && g in t.gateways
            && (t.gateways[g].recorded.Some? ==>
                  (Runs(t.gateways[g], t.gateways[g].recorded.value) <==> LastConfirmed(s, run, policy, g, true)))
  {
    TuneRun(s, run, policy, g, true);
  }

  /** A poll of a gateway in tune leaves it on the published snapshot. */
  lemma {:induction false} InTunePollRuns(s: Sys, g: GatewayId, now: real, policy: Policy)
    requires Inv(s) && Enabled(s, FetchStep(g, now, true)) && Deliverable(s.db, g, now) && InTune(s.gateways[g])
    ensures HeldBy(Poll(s, g, now, true, policy).gateways[g]) == Some(Envelope(FetchDb(s.db, g, now), g).value.1)
  {
    hide Poll;
    hide Envelope;
    PollRecords(s, g, now, policy);
    EnvelopeRuntime(FetchDb(s.db, g, now), g);
  }

  lemma {:induction false} EnvelopeRuntime(db: Db, g: GatewayId)
    ensures Envelope(db, g).Ok? ==> Envelope(db, g).value.0.runtime == OfRuntime(Envelope(db, g).value.1)
  {
  }

  /* ---- a secret replaced and put back ---- */

  lemma {:induction false} EnvelopeIs(db: Db, g: GatewayId, r: Runtime)
    requires MaxPublished(db) > 0 && g in db.instances && db.instances[g].envelope >= 2 && 2 in db.instances[g].schemas
    requires db.versions[MaxPublished(db)].schema >= 2
    requires Materialize(db, db.versions[MaxPublished(db)].declared) == Some(r)
    ensures var v := MaxPublished(db); Envelope(db, g) == Ok((IdentityOf(v, db.versions[v].schema, r), r))
  {
  }

  /** The highest published version has the full form. */
  predicate FullForm(db: Db) { MaxPublished(db) > 0 && db.versions[MaxPublished(db)].schema == 2 }

  /** What a gateway would fetch. */
  function Current(db: Db): Option<Runtime>
    requires FullForm(db)
  {
    Materialize(db, db.versions[MaxPublished(db)].declared)
  }

  lemma {:induction false} FetchesCurrent(db: Db, g: GatewayId, now: real, r: Runtime)
    requires FullForm(db) && Current(db) == Some(r)
    ensures var v := MaxPublished(db);
            Envelope(FetchDb(db, g, now), g) == Ok((IdentityOf(v, 2, r), r)) && Deliverable(db, g, now)
  {
    var d := FetchDb(db, g, now);
    SamePublished(db, d, db.nextVersion);
    assert Materialize(d, db.versions[MaxPublished(db)].declared) == Current(db) by {
      SameMaterialized(db, d, db.versions[MaxPublished(db)].declared);
    }
    EnvelopeIs(d, g, r);
  }

  lemma {:induction false} SameMaterialized(a: Db, b: Db, declared: Declared)
    requires a.credentials == b.credentials && a.mcp == b.mcp
    ensures Materialize(a, declared) == Materialize(b, declared)
  {
    if Materialize(a, declared).Some? {
      assert Materialize(a, declared).value.credentials == Materialize(b, declared).value.credentials;
    }
  }

  lemma {:induction false} ReplacedCurrent(db: Db, a: AccountId, secret: int)
    requires FullForm(db) && Current(db).Some? && a in db.versions[MaxPublished(db)].declared.accounts
    ensures var d := Replace(db, a, secret);
            && FullForm(d) && MaxPublished(d) == MaxPublished(db) && d.versions == db.versions
            && Current(d).Some? && Current(d).value.credentials[a].secret == secret
            && (secret != db.credentials[a].secret ==> Current(d) != Current(db))
  {
    SamePublished(db, Replace(db, a, secret), db.nextVersion);
  }

  lemma {:induction false} ReplacedBack(db: Db, a: AccountId, secret: int)
    requires a in db.credentials
    ensures Replace(Replace(db, a, secret), a, db.credentials[a].secret) == db
  {
    var d := Replace(Replace(db, a, secret), a, db.credentials[a].secret);
    assert d.credentials == db.credentials;
  }

  /** The steps of the story: a secret is replaced, the gateway fetches and adopts the new snapshot, the
      secret is put back, and the acknowledgement of the adoption is refused. */
  function ThereAndBack(g: GatewayId, a: AccountId, secret: int, back: int, now: real): seq<Step> {
    [ReplaceStep(a, secret), FetchStep(g, now, true), AdoptStep(g), ReplaceStep(a, back), AckStep(g, true, true)]
  }

  /** The gateway as it stands after fetching and adopting. */
  lemma {:induction false} AdoptsReplaced(s: Sys, g: GatewayId, a: AccountId, secret: int, now: real, policy: Policy)
    requires FullForm(s.db) && Current(s.db).Some? && a in s.db.versions[MaxPublished(s.db)].declared.accounts
    requires g in s.gateways && s.gateways[g].phase.Idle? && secret != s.db.credentials[a].secret
    requires s.gateways[g].recorded == Some(IdentityOf(MaxPublished(s.db), 2, Current(s.db).value))
    ensures var v, replaced := MaxPublished(s.db), Current(Replace(s.db, a, secret)).value;
            var s1 := Next(s, ReplaceStep(a, secret), policy);
            && Enabled(s1, FetchStep(g, now, true))
            && var s2 := Next(s1, FetchStep(g, now, true), policy);
               && Enabled(s2, AdoptStep(g))
               && var s3 := Next(s2, AdoptStep(g), policy);
                  && s3.db == FetchDb(Replace(s.db, a, secret), g, now)
                  && s3.gateways[g] == Gateway(s.gateways[g].recorded, Some((v, replaced)),
                                               Adopted(IdentityOf(v, 2, replaced), replaced))
  {
    hide Envelope;
    hide Current;
    hide FullForm;
    hide Replace;
    ReplacedCurrent(s.db, a, secret);
    FetchesCurrent(Replace(s.db, a, secret), g, now, Current(Replace(s.db, a, secret)).value);
  }

  lemma {:induction false} RefusedOnceBack(db: Db, g: GatewayId, v: nat, r: Runtime)
    requires FullForm(db) && v == MaxPublished(db) && Current(db) != Some(r) && r.Full?
    ensures AckFailure(db, Ack(g, IdentityOf(v, 2, r), true)).Some?
  {
  }

  lemma {:induction false} FetchReplaced(db: Db, g: GatewayId, a: AccountId, secret: int, back: int, now: real)
    requires MaxPublished(db) > 0 && a in db.credentials && back == db.credentials[a].secret
    ensures Replace(FetchDb(Replace(db, a, secret), g, now), a, back) == FetchDb(db, g, now)
  {
    var d := Replace(db, a, secret);
    SamePublished(db, d, db.nextVersion);
    ReplacedBack(db, a, secret);
    assert Replace(FetchDb(d, g, now), a, back).credentials == Replace(d, a, back).credentials;
  }

  /** After that the gateway has the current identity on record and runs something else, and its next
      undisturbed poll, which finds the identity unchanged, leaves it so. */
  lemma {:induction false} RecordCanBelieRunning(s: Sys, g: GatewayId, a: AccountId, secret: int, now: real,
                                                 policy: Policy)
    requires Inv(s) && FullForm(s.db) && Current(s.db).Some? && a in s.db.versions[MaxPublished(s.db)].declared.accounts
    requires g in s.gateways && s.gateways[g].phase.Idle? && secret != s.db.credentials[a].secret
    requires s.gateways[g].recorded == Some(IdentityOf(MaxPublished(s.db), 2, Current(s.db).value))
    ensures var run := ThereAndBack(g, a, secret, s.db.credentials[a].secret, now);
            && IsRun(s, run, policy)
            && var t := After(s, run, policy);
               && g in t.gateways && t.gateways[g].phase.Idle? && Deliverable(t.db, g, now)
               && t.gateways[g].recorded == Some(Envelope(FetchDb(t.db, g, now), g).value.0)
               && HeldBy(t.gateways[g]) != Some(Envelope(FetchDb(t.db, g, now), g).value.1)
               && HeldBy(Poll(t, g, now, true, policy).gateways[g]) == HeldBy(t.gateways[g])
  {
    hide Envelope;
    hide AckFailure;
    hide Poll;
    hide Inv;
    var back, v := s.db.credentials[a].secret, MaxPublished(s.db);
    var replaced := Current(Replace(s.db, a, secret)).value;
    AdoptsReplaced(s, g, a, secret, now, policy);
    ReplacedCurrent(s.db, a, secret);
    var s1 := Next(s, ReplaceStep(a, secret), policy);
    var s2 := Next(s1, FetchStep(g, now, true), policy);
    var s3 := Next(s2, AdoptStep(g), policy);
    var s4 := Next(s3, ReplaceStep(a, back), policy);
    FetchReplaced(s.db, g, a, secret, back, now);
    assert s4.db == FetchDb(s.db, g, now) && s4.gateways == s3.gateways;
    SameCurrent(s.db, g, now);
    RefusedOnceBack(s4.db, g, v, replaced);
    var t := Next(s4, AckStep(g, true, true), policy);
    assert t.db == s4.db && t.gateways[g] == Gateway(s.gateways[g].recorded, Some((v, replaced)), Idle);
    FiveSteps(s, ThereAndBack(g, a, secret, back, now), s1, s2, s3, s4, t, policy);
    FetchesCurrent(t.db, g, now, Current(s.db).value);
    InvStep(s, ReplaceStep(a, secret), policy);
    InvStep(s1, FetchStep(g, now, true), policy);
    InvStep(s2, AdoptStep(g), policy);
    InvStep(s3, ReplaceStep(a, back), policy);
    InvStep(s4, AckStep(g, true, true), policy);
    PollRecords(t, g, now, policy);
  }

  lemma {:induction false} SameCurrent(db: Db, g: GatewayId, now: real)
    requires FullForm(db)
    ensures var d := FetchDb(db, g, now);
            FullForm(d) && MaxPublished(d) == MaxPublished(db) && Current(d) == Current(db)
  {
    var d := FetchDb(db, g, now);
    SamePublished(db, d, db.nextVersion);
    SameMaterialized(db, d, db.versions[MaxPublished(db)].declared);
  }

  lemma {:induction false} FiveSteps(s: Sys, run: seq<Step>, s1: Sys, s2: Sys, s3: Sys, s4: Sys, t: Sys, policy: Policy)
    requires |run| == 5
    requires Enabled(s, run[0]) && s1 == Next(s, run[0], policy) && Enabled(s1, run[1])
    requires s2 == Next(s1, run[1], policy)
    requires Enabled(s2, run[2]) && s3 == Next(s2, run[2], policy) && Enabled(s3, run[3])
    requires s4 == Next(s3, run[3], policy)
    requires Enabled(s4, run[4]) && t == Next(s4, run[4], policy)
    ensures IsRun(s, run, policy) && After(s, run, policy) == t
  {
    hide Next;
    hide Enabled;
    assert run[4..] == [run[4]] && run[4..][1..] == [];
    assert IsRun(t, [], policy) && After(t, [], policy) == t;
    assert IsRun(s4, run[4..], policy) && After(s4, run[4..], policy) == t;
    assert run[3..][1..] == run[4..] && IsRun(s3, run[3..], policy) && After(s3, run[3..], policy) == t;
    assert run[2..][1..] == run[3..] && IsRun(s2, run[2..], policy) && After(s2, run[2..], policy) == t;
    assert run[1..][1..] == run[2..] && IsRun(s1, run[1..], policy) && After(s1, run[1..], policy) == t;
  }

  /* ---- runs that only rotate ---- */

  /** No secret is replaced under its revision and no MCP server changes. */
  predicate Rotating(step: Step) { !step.ReplaceStep? && !step.McpStep? }

  /** Credentials change only with their revision. */
  ghost predicate GrowsByRevision(a: Db, b: Db) {
    && Grows(a, b) && b.mcp == a.mcp
    && forall k :: k in a.credentials ==>
         b.credentials[k] == a.credentials[k] || a.credentials[k].revision < b.credentials[k].revision
  }

  lemma {:induction false} RotatingGrows(s: Sys, step: Step, policy: Policy)
    requires ValidDb(s.db) && Enabled(s, step) && Rotating(step)
    ensures GrowsByRevision(s.db, NextDb(s, step, policy))
  {
    hide Grows;
    StepGrows(s, step, policy);
  }

  /** A snapshot of a published version, with credentials the tables still hold or have since rotated. */
  ghost predicate Past(db: Db, v: nat, r: Runtime) {
    && IsPublished(db, v) && v <= MaxPublished(db)
    && r.declared == db.versions[v].declared && (r.Full? <==> db.versions[v].schema >= 2)
    && (r.Full? ==>
          && r.mcp == db.mcp && r.credentials.Keys == r.declared.accounts
          && forall k :: k in r.credentials ==>
               && k in db.credentials
               && (r.credentials[k] == db.credentials[k] || r.credentials[k].revision < db.credentials[k].revision))
  }

  lemma {:induction false} PastKept(a: Db, b: Db, v: nat, r: Runtime)
    requires Past(a, v, r) && GrowsByRevision(a, b)
    ensures Past(b, v, r)
  {
  }

  /** The second snapshot is of the same version with no older credentials, or of a later version. */
  predicate NotOlder(v: nat, r: Runtime, w: nat, q: Runtime) {
    || v < w
    || (v == w && (r.Full? && q.Full? ==>
                     forall k :: k in r.credentials && k in q.credentials ==>
                       r.credentials[k].revision <= q.credentials[k].revision))
  }

  lemma {:induction false} FetchedIsPast(db: Db, g: GatewayId)
    requires g in db.instances && db.instances[g].envelope >= 2 && 2 in db.instances[g].schemas && Envelope(db, g).Ok?
    ensures var (id, snap) := Envelope(db, g).value;
            Past(db, id.version, snap) && id.version == MaxPublished(db) && id.runtime == OfRuntime(snap)
  {
  }

  lemma {:induction false} FetchedNotOlder(db: Db, g: GatewayId, v: nat, r: Runtime)
    requires g in db.instances && db.instances[g].envelope >= 2 && 2 in db.instances[g].schemas && Envelope(db, g).Ok?
    requires Past(db, v, r)
    ensures var (id, snap) := Envelope(db, g).value; NotOlder(v, r, id.version, snap)
  {
    var (id, snap) := Envelope(db, g).value;
    if v == id.version && r.Full? && snap.Full? {
      forall k | k in r.credentials && k in snap.credentials
        ensures r.credentials[k].revision <= snap.credentials[k].revision
      {
        assert snap.credentials[k] == db.credentials[k];
      }
    }
  }

  /** The snapshot on record is not newer than the one that runs, and neither than the one in flight. */
  ghost predicate PastInv(db: Db, gw: Gateway) {
    && (gw.running.Some? ==> Past(db, gw.running.value.0, gw.running.value.1))
    && (InFlight(gw) ==>
          Past(db, gw.phase.id.version, gw.phase.snap) && gw.phase.id.runtime == OfRuntime(gw.phase.snap))
    && (gw.phase.Adopted? ==> gw.running == Some((gw.phase.id.version, gw.phase.snap)))
    && (gw.recorded.Some? ==>
          && gw.recorded.value.runtime.OfRuntime? && gw.running.Some?
          && Past(db, gw.recorded.value.version, gw.recorded.value.runtime.runtime)
          && NotOlder(gw.recorded.value.version, gw.recorded.value.runtime.runtime, gw.running.value.0,
              gw.running.value.1)
          && (gw.phase.Fetched? ==>
                NotOlder(gw.recorded.value.version, gw.recorded.value.runtime.runtime,
                         gw.phase.id.version, gw.phase.snap)))
  }

  lemma {:induction false} PastInvKept(a: Db, b: Db, gw: Gateway)
    requires PastInv(a, gw) && GrowsByRevision(a, b)
    ensures PastInv(b, gw)
  {
    hide Past;
    hide GrowsByRevision;
    hide NotOlder;
    if gw.running.Some? { PastKept(a, b, gw.running.value.0, gw.running.value.1); }
    if InFlight(gw) { PastKept(a, b, gw.phase.id.version, gw.phase.snap); }
    if gw.recorded.Some? { PastKept(a, b, gw.recorded.value.version, gw.recorded.value.runtime.runtime); }
  }

  lemma {:induction false} PastFetch(db: Db, g: GatewayId, gw: Gateway, builds: bool)
    requires PastInv(db, gw) && gw.phase.Idle?
    requires MaxPublished(db) > 0 ==> g in db.instances && db.instances[g].envelope >= 2 && 2 in db.instances[g].schemas
    ensures PastInv(db, gw.(phase := FetchPhase(db, g, builds)))
  {
    hide Envelope;
    hide Past;
    hide NotOlder;
    NothingPublished(db, g);
    if Envelope(db, g).Ok? {
      FetchedIsPast(db, g);
      if gw.recorded.Some? {
        FetchedNotOlder(db, g, gw.recorded.value.version, gw.recorded.value.runtime.runtime);
      }
    }
  }

  lemma {:induction false} SameIsNotOlder(v: nat, r: Runtime)
    ensures NotOlder(v, r, v, r)
  {
  }

  lemma {:induction false} PastStep(s: Sys, step: Step, policy: Policy, g: GatewayId)
    requires ValidDb(s.db) && Enabled(s, step) && Rotating(step) && g in s.gateways && PastInv(s.db, s.gateways[g])
    ensures g in Next(s, step, policy).gateways
    ensures PastInv(Next(s, step, policy).db, Next(s, step, policy).gateways[g])
  {
    hide Past;
    hide GrowsByRevision;
    hide NotOlder;
    hide Envelope;
    hide AckFailure;
    var t, gw := Next(s, step, policy), s.gateways[g];
    RotatingGrows(s, step, policy);
    PastInvKept(s.db, t.db, gw);
    if step.FetchStep? && step.g == g {
      FetchedDb(s, step, policy);
      FetchCapable(s.db, g, step.now);
      PastFetch(t.db, g, gw, step.builds);
    }
    if step.AckStep? && step.g == g && gw.phase.Adopted? { SameIsNotOlder(gw.phase.id.version, gw.phase.snap); }
  }

  lemma {:induction false} FetchCapable(db: Db, g: GatewayId, now: real)
    ensures var d := FetchDb(db, g, now);
            MaxPublished(d) > 0 ==> g in d.instances && d.instances[g].envelope >= 2 && 2 in d.instances[g].schemas
  {
    SamePublished(db, FetchDb(db, g, now), db.nextVersion);
  }

  lemma {:induction false} PastRun(s: Sys, run: seq<Step>, policy: Policy, g: GatewayId)
    requires IsRun(s, run, policy) && Inv(s) && g in s.gateways && PastInv(s.db, s.gateways[g])
    requires forall i :: 0 <= i < |run| ==> Rotating(run[i])
    ensures var t := After(s, run, policy); Inv(t) && g in t.gateways && PastInv(t.db, t.gateways[g])
    decreases |run|
  {
    hide Next;
    hide PastInv;
    hide GatewayInv;
    if run != [] {
      PastStep(s, run[0], policy, g);
      InvStep(s, run[0], policy);
      PastRun(Next(s, run[0], policy), run[1..], policy, g);
    }
  }

  /** Between the record and the tables there is room for one snapshot only. */
  lemma {:induction false} Squeezed(db: Db, snap: Runtime, w: nat, q: Runtime)
    requires FullForm(db) && Current(db) == Some(snap) && Past(db, w, q) && NotOlder(MaxPublished(db), snap, w, q)
    ensures q == snap
  {
    assert w == MaxPublished(db);
    forall k | k in q.credentials ensures q.credentials[k] == snap.credentials[k] {
      assert snap.credentials[k] == db.credentials[k];
    }
    assert q.credentials == snap.credentials;
  }

  /** In every run that changes credentials only by rotation, a poll of the full form always leaves the
      gateway on the published snapshot, whatever acknowledgements were refused or lost before. */
  lemma {:induction false} RotatingPollRuns(s: Sys, run: seq<Step>, policy: Policy, g: GatewayId, now: real)
    requires IsStart(s) && IsRun(s, run, policy) && g in s.gateways && forall i :: 0 <= i < |run| ==> Rotating(run[i])
    requires var t := After(s, run, policy);
             && g in t.gateways && t.gateways[g].phase.Idle? && FullForm(t.db) && Current(t.db).Some?
    ensures var t := After(s, run, policy);
            HeldBy(Poll(t, g, now, true, policy).gateways[g]) == Current(t.db)
  {
    hide Poll;
    hide Envelope;
    hide Past;
    hide NotOlder;
    StartKeeps(s);
    PastRun(s, run, policy, g);
    var t := After(s, run, policy);
    var snap, gw := Current(t.db).value, t.gateways[g];
    FetchesCurrent(t.db, g, now, snap);
    PollRecords(t, g, now, policy);
    if gw.recorded == Some(IdentityOf(MaxPublished(t.db), 2, snap)) {
      Squeezed(t.db, snap, gw.running.value.0, gw.running.value.1);
    }
  }
}
