/** The secrets a gateway runs with, in the legacy form and in the full one. */
module SnapshotSecrets {
  import opened Wrappers
  import opened SnapshotStore
  import opened SnapshotProtocol

  /** An undisturbed poll that finds an identity the gateway does not have on record leaves it running
      the highest published version with exactly the secrets stored at the fetch, whatever the form of
      the snapshot and whatever becomes of the acknowledgement. */
  lemma {:induction false} PollTakesStoredSecrets(s: Sys, g: GatewayId, now: real, policy: Policy)
    requires Enabled(s, FetchStep(g, now, true)) && Envelope(FetchDb(s.db, g, now), g).Ok?
    requires s.gateways[g].recorded != Some(Envelope(FetchDb(s.db, g, now), g).value.0)
    ensures var gw := Poll(s, g, now, true, policy).gateways[g];
            && gw.running.Some? && gw.running.value.0 == MaxPublished(s.db)
            && Carries(s.db, gw.running.value.0, gw.running.value.1)
            && (gw.running.value.1.Legacy? <==> s.db.versions[MaxPublished(s.db)].schema < 2)
  {
    hide Envelope;
    hide AckFailure;
    hide Carries;
    FetchCarries(s.db, g, now);
    assert NextDb(s, FetchStep(g, now, true), policy) == FetchDb(s.db, g, now);
  }

  lemma {:induction false} FetchCarries(db: Db, g: GatewayId, now: real)
    requires Envelope(FetchDb(db, g, now), g).Ok?
    ensures var (id, snap) := Envelope(FetchDb(db, g, now), g).value;
            && id.version == MaxPublished(db) > 0 && Carries(db, id.version, snap)
            && (snap.Legacy? <==> db.versions[MaxPublished(db)].schema < 2)
  {
    hide Envelope;
    hide Carries;
    var d := FetchDb(db, g, now);
    SamePublished(db, d, db.nextVersion);
    EnvelopeCarries(d, g);
    FormOf(d, g);
    var (id, snap) := Envelope(d, g).value;
    SameCarried(d, db, id.version, snap);
  }

  lemma {:induction false} FormOf(db: Db, g: GatewayId)
    requires Envelope(db, g).Ok? && g in db.instances
    requires db.instances[g].schemas == SCHEMAS && db.instances[g].envelope == ENVELOPE
    ensures MaxPublished(db) > 0
            && (Envelope(db, g).value.1.Legacy? <==> db.versions[MaxPublished(db)].schema < 2)
  {
  }

  lemma {:induction false} SameCarried(a: Db, b: Db, v: nat, r: Runtime)
    requires a.versions == b.versions && a.credentials == b.credentials && a.mcp == b.mcp
    ensures Carries(a, v, r) <==> Carries(b, v, r)
  {
  }

  /* ---- whole runs ---- */

  /** The tables a run goes through, the first ones included. */
  function Tables(s: Sys, run: seq<Step>, policy: Policy): seq<Db>
    requires IsRun(s, run, policy)
    decreases |run|
  {
    [s.db] + if run == [] then [] else Tables(Next(s, run[0], policy), run[1..], policy)
  }

  predicate CarriedByOne(tables: seq<Db>, v: nat, r: Runtime) {
    exists i :: 0 <= i < |tables| && Carries(tables[i], v, r)
  }

  /** What the gateway runs, or is about to run, was carried by some of these tables. */
  predicate Stored(tables: seq<Db>, gw: Gateway) {
    && (gw.running.Some? ==> CarriedByOne(tables, gw.running.value.0, gw.running.value.1))
    && (InFlight(gw) ==> CarriedByOne(tables, gw.phase.id.version, gw.phase.snap))
  }

  lemma {:induction false} CarriedStays(tables: seq<Db>, db: Db, v: nat, r: Runtime)
    ensures CarriedByOne(tables, v, r) ==> CarriedByOne(tables + [db], v, r)
    ensures Carries(db, v, r) ==> CarriedByOne(tables + [db], v, r)
  {
    if i :| 0 <= i < |tables| && Carries(tables[i], v, r) { assert (tables + [db])[i] == tables[i]; }
    assert (tables + [db])[|tables|] == db;
  }

  lemma {:induction false} StoredStays(tables: seq<Db>, db: Db, gw: Gateway)
    requires Stored(tables, gw)
    ensures Stored(tables + [db], gw)
  {
    hide CarriedByOne;
    if gw.running.Some? { CarriedStays(tables, db, gw.running.value.0, gw.running.value.1); }
    if InFlight(gw) { CarriedStays(tables, db, gw.phase.id.version, gw.phase.snap); }
  }

  lemma {:induction false} StoredStep(s: Sys, step: Step, policy: Policy, g: GatewayId, tables: seq<Db>)
    requires Enabled(s, step) && g in s.gateways && Stored(tables, s.gateways[g])
    ensures var t := Next(s, step, policy); g in t.gateways && Stored(tables + [t.db], t.gateways[g])
  {
    hide CarriedByOne;
    hide Envelope;
    hide AckFailure;
    hide NextDb;
    var t := Next(s, step, policy);
    StoredStays(tables, t.db, s.gateways[g]);
    if step.FetchStep? && step.g == g && Envelope(FetchDb(s.db, g, step.now), g).Ok? {
      var (id, snap) := Envelope(FetchDb(s.db, g, step.now), g).value;
      EnvelopeCarries(FetchDb(s.db, g, step.now), g);
      assert t.db == FetchDb(s.db, g, step.now) by { FetchesTables(s, step, policy); }
      CarriedStays(tables, t.db, id.version, snap);
    }
  }

  lemma {:induction false} FetchesTables(s: Sys, step: Step, policy: Policy)
    requires Enabled(s, step) && step.FetchStep?
    ensures NextDb(s, step, policy) == FetchDb(s.db, step.g, step.now)
  {
  }

  lemma {:induction false} StoredRun(s: Sys, run: seq<Step>, policy: Policy, g: GatewayId, before: seq<Db>)
    requires IsRun(s, run, policy) && g in s.gateways && Stored(before + [s.db], s.gateways[g])
    ensures var t := After(s, run, policy);
            g in t.gateways && Stored(before + Tables(s, run, policy), t.gateways[g])
    decreases |run|
  {
    hide Next;
    hide Stored;
    if run == [] {
      assert Tables(s, run, policy) == [s.db];
    } else {
      var t := Next(s, run[0], policy);
      StoredStep(s, run[0], policy, g, before + [s.db]);
      StoredRun(t, run[1..], policy, g, before + [s.db]);
      assert before + [s.db] + Tables(t, run[1..], policy) == before + Tables(s, run, policy);
    }
  }

  /** In every run, whatever is rotated, edited, published or lost in between, what a gateway runs was at
      one moment of the run the configuration of a version published then, with exactly the secrets
      stored at that same moment for its accounts: never a mixture of two moments. */
  lemma {:induction false} RunningWasStored(s: Sys, run: seq<Step>, policy: Policy, g: GatewayId)
    requires IsStart(s) && IsRun(s, run, policy) && g in s.gateways
    ensures var t := After(s, run, policy);
            && g in t.gateways
            && (t.gateways[g].running.Some? ==>
                  exists i :: 0 <= i < |Tables(s, run, policy)|
                              && Carries(Tables(s, run, policy)[i], t.gateways[g].running.value.0,
                                         t.gateways[g].running.value.1))
  {
    hide Next;
    hide Carries;
    StoredRun(s, run, policy, g, []);
    assert [] + Tables(s, run, policy) == Tables(s, run, policy);
  }
}
