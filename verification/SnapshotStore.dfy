/** The control plane's tables and the operations on them, each one step. SHA-256 over canonical
    text is taken as injective: a digest is the value it was computed from. */
module SnapshotStore {
  import opened Wrappers

  type AccountId = nat
  type GatewayId = nat

  /** A compiled configuration: the accounts it uses and everything else, opaque. */
  datatype Declared = Declared(accounts: set<AccountId>, needsV2: bool, v2Only: bool, rest: int)

  datatype Credential = Credential(revision: nat, secret: int)

  /** A configuration with the secrets stored at some moment: the full form, or the legacy form
      that carries no revisions. MCP headers are read from their own table. */
  datatype Runtime =
    | Full(declared: Declared, credentials: map<AccountId, Credential>, mcp: int)
    | Legacy(declared: Declared, secrets: map<AccountId, int>)

  datatype Digest =
    | OfDeclared(declared: Declared)
    | OfRuntime(runtime: Runtime)
    | OfRevisions(revisions: map<AccountId, nat>)

  datatype Status = Draft | Published | Invalid

  datatype Row = Row(status: Status, schema: nat, declared: Declared)

  datatype Instance = Instance(schemas: set<nat>, envelope: nat, lastSeen: real)

  /** What names a snapshot between gateway and control plane. */
  datatype Identity = Identity(
    version: nat, schema: nat, config: Digest, credential: Option<Digest>, runtime: Digest, envelope: nat)

  datatype Ack = Ack(gateway: GatewayId, id: Identity, adopted: bool)

  datatype Db = Db(
    versions: map<nat, Row>, nextVersion: nat, credentials: map<AccountId, Credential>, mcp: int,
    instances: map<GatewayId, Instance>, acks: seq<Ack>)

  datatype Policy = Policy(minActive: nat, ttl: real)

  datatype Failure =
    | NotFound | UpgradeRequired | MissingCredential | TooFewGateways
    | CapabilityMismatch | NotPublished | IdentityMismatch

  /** Versions are numbered from one, upwards. */
  predicate ValidDb(db: Db) { db.nextVersion > 0 && forall v :: v in db.versions ==> 0 < v < db.nextVersion }

  /* ---- versions ---- */

  predicate IsPublished(db: Db, v: nat) { v in db.versions && db.versions[v].status == Published }

  /** The highest published version below a bound, or zero. */
  function HighestBelow(db: Db, bound: nat, status: Status): (v: nat)
    ensures v < bound || v == 0
    ensures v > 0 ==> v in db.versions && db.versions[v].status == status
    ensures forall w :: v < w < bound && w in db.versions ==> db.versions[w].status != status
  {
    if bound == 0 then 0
    else if bound - 1 in db.versions && db.versions[bound - 1].status == status then bound - 1
    else HighestBelow(db, bound - 1, status)
  }

  function MaxPublished(db: Db): nat { HighestBelow(db, db.nextVersion, Published) }

  function StoreDraft(db: Db, declared: Declared, schema: nat): Db {
    db.(versions := db.versions[db.nextVersion := Row(Draft, schema, declared)], nextVersion := db.nextVersion + 1)
  }

  predicate RequiresV2(row: Row) { row.schema >= 2 || row.declared.needsV2 }

  function Active(db: Db, policy: Policy, now: real): set<GatewayId> {
    set g | g in db.instances && db.instances[g].lastSeen >= now - policy.ttl
  }

  function LatestAck(acks: seq<Ack>, g: GatewayId): (r: Option<Ack>)
    ensures r.Some? ==> r.value.gateway == g
                        && exists i :: 0 <= i < |acks| && acks[i] == r.value
                                       && forall j :: i < j < |acks| ==> acks[j].gateway != g
    ensures r.None? ==> forall i :: 0 <= i < |acks| ==> acks[i].gateway != g
  {
    if acks == [] then None
    else if acks[|acks| - 1].gateway == g then Some(acks[|acks| - 1])
    else LatestAck(acks[..|acks| - 1], g)
  }

  predicate SpeaksV2(db: Db, g: GatewayId)
    requires g in db.instances
  {
    && db.instances[g].envelope >= 2 && 2 in db.instances[g].schemas
    && var last := LatestAck(db.acks, g);
       last.Some? && last.value.adopted && last.value.id.envelope >= 2 && last.value.id.schema >= 2
  }

  /** Every active gateway has adopted a v2 snapshot, and there are enough of them. */
  predicate V2Publishable(db: Db, policy: Policy, now: real) {
    && |Active(db, policy, now)| >= policy.minActive
    && forall g :: g in Active(db, policy, now) ==> SpeaksV2(db, g)
  }

  /** The draft that publication takes: the newest one above every published version; a fresh one
      compiled on the spot if there is none. */
  function PublicationDraft(db: Db, compiled: Declared): (Db, nat) {
    var draft := HighestBelow(db, db.nextVersion, Draft);
    if draft > MaxPublished(db) then (db, draft) else (StoreDraft(db, compiled, 2), db.nextVersion)
  }

  function MarkPublished(db: Db, v: nat): Db
    requires v in db.versions
  {
    db.(versions := db.versions[v := db.versions[v].(status := Published)])
  }

  lemma {:induction false} PublicationDraftExists(db: Db, compiled: Declared)
    ensures var (d, v) := PublicationDraft(db, compiled);
            v in d.versions && d.versions[v].status == Draft && (ValidDb(db) ==> v > MaxPublished(db))
  {
  }

  /** publishLatest; a refused publication leaves the tables as they were. */
  function Publish(db: Db, policy: Policy, compiled: Declared, now: real): (Db, Result<nat, Failure>) {
    PublicationDraftExists(db, compiled);
    var (d, v) := PublicationDraft(db, compiled);
    if RequiresV2(d.versions[v]) && !V2Publishable(d, policy, now)
    then (db, Err(if |Active(d, policy, now)| < policy.minActive then TooFewGateways else UpgradeRequired))
    else (MarkPublished(d, v), Ok(v))
  }

  /* ---- materialisation ---- */

  function Materialize(db: Db, declared: Declared): Option<Runtime> {
    if forall a :: a in declared.accounts ==> a in db.credentials
    then Some(Full(declared, map a | a in declared.accounts :: db.credentials[a], db.mcp))
    else None
  }

  function MaterializeLegacy(db: Db, declared: Declared): Option<Runtime> {
    if forall a :: a in declared.accounts ==> a in db.credentials
    then Some(Legacy(declared, map a | a in declared.accounts :: db.credentials[a].secret))
    else None
  }

  /** The digest of account revisions, from a materialised snapshot or from the accounts table. */
  function RevisionsOf(credentials: map<AccountId, Credential>): Digest {
    OfRevisions(map a | a in credentials :: credentials[a].revision)
  }

  function StoredDigest(db: Db, declared: Declared): Option<Digest> {
    if forall a :: a in declared.accounts ==> a in db.credentials
    then Some(OfRevisions(map a | a in declared.accounts :: db.credentials[a].revision))
    else None
  }

  /** The two computations agree: what the envelope digests from the materialised snapshot is what
      the acknowledgement digests from the accounts table. */
  lemma {:induction false} DigestsAgree(db: Db, declared: Declared)
    ensures Materialize(db, declared).Some? <==> StoredDigest(db, declared).Some?
    ensures Materialize(db, declared).Some? ==>
              StoredDigest(db, declared) == Some(RevisionsOf(Materialize(db, declared).value.credentials))
  {
    if Materialize(db, declared).Some? {
      var credentials := Materialize(db, declared).value.credentials;
      assert credentials.Keys == declared.accounts;
      assert StoredDigest(db, declared).value.revisions == RevisionsOf(credentials).revisions;
    }
  }

  /* ---- heartbeat, envelope, acknowledgement ---- */

  function Heartbeat(db: Db, g: GatewayId, schemas: set<nat>, envelope: nat, now: real): Db {
    db.(instances := db.instances[g := Instance(schemas, envelope, now)])
  }

  /** The envelope for a gateway whose capability is on record: the highest published version with
      the secrets stored now, in the newest form both sides know. */
  function Envelope(db: Db, g: GatewayId): Result<(Identity, Runtime), Failure> {
    var v := MaxPublished(db);
    if v == 0 then Err(NotFound)
    else
      var row := db.versions[v];
      var capable := g in db.instances && db.instances[g].envelope >= 2 && 2 in db.instances[g].schemas;
      if row.declared.v2Only && !capable then Err(UpgradeRequired)
      else if capable && row.schema >= 2 then
        var runtime := Materialize(db, row.declared);
        if runtime.None? then Err(MissingCredential)
        else
          Ok((Identity(v, row.schema, OfDeclared(row.declared), Some(RevisionsOf(runtime.value.credentials)),
                       OfRuntime(runtime.value), 2), runtime.value))
      else
        var runtime := MaterializeLegacy(db, row.declared);
        if runtime.None? then Err(MissingCredential)
        else Ok((Identity(v, 1, OfRuntime(runtime.value), None, OfRuntime(runtime.value), 1), runtime.value))
  }

  /** The checks of a v2 acknowledgement. */
  function AckFailure(db: Db, ack: Ack): Option<Failure> {
    var id := ack.id;
    if id.envelope < 2 then None
    else if ack.gateway !in db.instances || db.instances[ack.gateway].envelope < 2
        || id.schema !in db.instances[ack.gateway].schemas
    then Some(CapabilityMismatch)
    else if id.version !in db.versions then Some(NotFound)
    else if db.versions[id.version].status != Published then Some(NotPublished)
    else
      var row := db.versions[id.version];
      var digest, runtime := StoredDigest(db, row.declared), Materialize(db, row.declared);
      if digest.None? || runtime.None? then Some(MissingCredential)
      else if row.schema != id.schema || OfDeclared(row.declared) != id.config
              || digest != id.credential || OfRuntime(runtime.value) != id.runtime
      then Some(IdentityMismatch)
      else None
  }

  /** persistGatewayAck: checked, then stored as the gateway's latest. */
  function PersistAck(db: Db, ack: Ack): (Db, Option<Failure>) {
    var failure := AckFailure(db, ack);
    if failure.Some? then (db, failure) else (db.(acks := db.acks + [ack]), None)
  }

  /** A credential update through the gateway route raises the revision; an edit in the dashboard
      replaces the secret and keeps it. */
  function Rotate(db: Db, a: AccountId, secret: int): Db {
    if a !in db.credentials then db
    else db.(credentials := db.credentials[a := Credential(db.credentials[a].revision + 1, secret)])
  }

  function Replace(db: Db, a: AccountId, secret: int): Db {
    if a !in db.credentials then db
    else db.(credentials := db.credentials[a := Credential(db.credentials[a].revision, secret)])
  }

  function AddAccount(db: Db, a: AccountId, secret: int): Db {
    if a in db.credentials then db else db.(credentials := db.credentials[a := Credential(1, secret)])
  }

  /* ---- what a snapshot carries ---- */

  /** The secrets in a snapshot, whatever its form. */
  function Secrets(r: Runtime): map<AccountId, int> {
    if r.Full? then map a | a in r.credentials :: r.credentials[a].secret else r.secrets
  }

  /** The snapshot is of a published version: its configuration, and for exactly its accounts the
      secrets that the tables hold, in the full form with their revisions and the MCP headers. */
  predicate Carries(db: Db, v: nat, r: Runtime) {
    && IsPublished(db, v) && r.declared == db.versions[v].declared
    && Secrets(r).Keys == r.declared.accounts
    && (forall a :: a in r.declared.accounts ==> a in db.credentials && Secrets(r)[a] == db.credentials[a].secret)
    && (r.Full? ==> r.mcp == db.mcp && forall a :: a in r.declared.accounts ==>
                      a in r.credentials && r.credentials[a].revision == db.credentials[a].revision)
  }

  /** Whatever form an envelope takes, its snapshot carries the highest published version with the
      secrets stored now; and there is one exactly when something is published, the gateway can take
      its form, and every account of it has a credential. */
  lemma {:induction false} EnvelopeCarries(db: Db, g: GatewayId)
    ensures Envelope(db, g).Ok? ==>
              var (id, snap) := Envelope(db, g).value;
              id.version == MaxPublished(db) && Carries(db, id.version, snap) && id.runtime == OfRuntime(snap)
    ensures Envelope(db, g).Ok?
            <==> && MaxPublished(db) > 0
                 && var declared := db.versions[MaxPublished(db)].declared;
                    && (declared.v2Only ==>
                          g in db.instances && db.instances[g].envelope >= 2 && 2 in db.instances[g].schemas)
                    && forall a :: a in declared.accounts ==> a in db.credentials
  {
    var v := MaxPublished(db);
    if v > 0 {
      var declared := db.versions[v].declared;
      MaterializedCarries(db, v, Materialize(db, declared));
      MaterializedCarries(db, v, MaterializeLegacy(db, declared));
    }
  }

  lemma {:induction false} MaterializedCarries(db: Db, v: nat, r: Option<Runtime>)
    requires IsPublished(db, v)
    requires var declared := db.versions[v].declared;
             r == Materialize(db, declared) || r == MaterializeLegacy(db, declared)
    ensures r.Some? ==> Carries(db, v, r.value)
  {
  }

  /** A credential change reaches the very next envelope: both a rotation and an edit put the new
      secret in, for that account alone; a rotation raises its revision and an edit keeps it. A new
      account starts at revision 1, and adding one that exists changes nothing. */
  lemma {:induction false} ChangeReachesEnvelope(db: Db, g: GatewayId, a: AccountId, secret: int, rotated: bool)
    requires Envelope(db, g).Ok? && a in db.versions[MaxPublished(db)].declared.accounts
    ensures var d := if rotated then Rotate(db, a, secret) else Replace(db, a, secret);
            && Envelope(d, g).Ok?
            && var (was, snap) := (Envelope(db, g).value.1, Envelope(d, g).value.1);
               && Secrets(snap) == Secrets(was)[a := secret]
               && a in db.credentials && a in d.credentials
               && d.credentials[a].revision == db.credentials[a].revision + (if rotated then 1 else 0)
    ensures AddAccount(db, a, secret) == db
  {
    hide Envelope;
    EnvelopeCarries(db, g);
    var d := if rotated then Rotate(db, a, secret) else Replace(db, a, secret);
    SamePublished(db, d, db.nextVersion);
    EnvelopeCarries(d, g);
    assert Secrets(Envelope(d, g).value.1) == Secrets(Envelope(db, g).value.1)[a := secret];
  }

  lemma {:induction false} AddedAccount(db: Db, a: AccountId, secret: int)
    ensures var d := AddAccount(db, a, secret);
            && d.credentials.Keys == db.credentials.Keys + {a}
            && (a !in db.credentials ==> d.credentials[a].secret == secret && d.credentials[a].revision == 1)
            && forall k :: k in db.credentials ==> d.credentials[k] == db.credentials[k]
  {
  }

  /* ---- what publication promises ---- */

  /** A publication is refused exactly when its version has the v2 schema, or its configuration needs
      v2, and the gate is shut: too few gateways are active, or one of them cannot take v2, or its last
      acknowledgement is not of an adopted v2 snapshot. */
  lemma {:induction false} PublishRefusedIff(db: Db, policy: Policy, compiled: Declared, now: real)
    ensures var (d, v) := PublicationDraft(db, compiled);
            v in d.versions
            && (Publish(db, policy, compiled, now).1.Err?
                <==> (d.versions[v].schema >= 2 || d.versions[v].declared.needsV2)
                     && !V2Publishable(d, policy, now))
  {
    PublicationDraftExists(db, compiled);
  }

  /** A publication strictly raises the highest published version and publishes only that one. */
  lemma {:induction false} PublishRaises(db: Db, policy: Policy, compiled: Declared, now: real)
    requires ValidDb(db)
    ensures var (t, r) := Publish(db, policy, compiled, now);
            && ValidDb(t)
            && (r.Err? ==> t == db)
            && (r.Ok? ==> r.value > MaxPublished(db) && MaxPublished(t) == r.value
                          && forall v :: IsPublished(t, v) <==> IsPublished(db, v) || v == r.value)
  {
    var (t, r) := Publish(db, policy, compiled, now);
    if r.Ok? {
      var (d, v) := PublicationDraft(db, compiled);
      PublicationDraftExists(db, compiled);
      HighestIs(t, t.nextVersion, Published, v);
    }
  }

  lemma {:induction false} HighestIs(db: Db, bound: nat, status: Status, v: nat)
    requires 0 < v < bound && v in db.versions && db.versions[v].status == status
    requires forall w :: v < w < bound && w in db.versions ==> db.versions[w].status != status
    ensures HighestBelow(db, bound, status) == v
  {
  }

  /** A stored draft is what the next publication takes, whatever was compiled since. */
  lemma {:induction false} StoredDraftIsNext(db: Db, declared: Declared, schema: nat, compiled: Declared)
    requires ValidDb(db)
    ensures var stored := StoreDraft(db, declared, schema);
            ValidDb(stored) && PublicationDraft(stored, compiled) == (stored, db.nextVersion) && MaxPublished(stored)
                == MaxPublished(db)
  {
    var stored := StoreDraft(db, declared, schema);
    HighestIs(stored, stored.nextVersion, Draft, db.nextVersion);
    var m := MaxPublished(db);
    if m > 0 { HighestIs(stored, stored.nextVersion, Published, m); }
  }

  /** A heartbeat decides the form of the next envelope: the v2 form exactly for a gateway that
      advertises it and a version that has it, an error for one that needs it; and it keeps the
      gateway active for exactly the time to live. */
  lemma {:induction false} HeartbeatDecides(db: Db, g: GatewayId, schemas: set<nat>, envelope: nat, now: real,
                                            policy: Policy, t: real)
    requires MaxPublished(db) > 0
    ensures var d := Heartbeat(db, g, schemas, envelope, now);
            var row, capable := db.versions[MaxPublished(db)], envelope >= 2 && 2 in schemas;
            && (g in Active(d, policy, t) <==> t <= now + policy.ttl)
            && (Envelope(d, g) == Err(UpgradeRequired) <==> row.declared.v2Only && !capable)
            && (Envelope(d, g).Ok? ==> Envelope(d, g).value.0.version == MaxPublished(db)
                                       && (Envelope(d, g).value.1.Full? <==> capable && row.schema >= 2))
  {
    SamePublished(db, Heartbeat(db, g, schemas, envelope, now), db.nextVersion);
  }

  /** The operations as the control plane runs them, on its own tables. */
  class ControlPlane {
    var versions: map<nat, Row>
    var nextVersion: nat
    var credentials: map<AccountId, Credential>
    var mcp: int
    var instances: map<GatewayId, Instance>
    var acks: seq<Ack>

    function View(): Db
      reads this
    {
      Db(versions, nextVersion, credentials, mcp, instances, acks)
    }

    constructor (mcp: int)
      ensures View() == Db(map[], 1, map[], mcp, map[], [])
    {
      versions, nextVersion, credentials, this.mcp, instances, acks := map[], 1, map[], mcp, map[], [];
    }

    method InsertDraft(declared: Declared, schema: nat) returns (version: nat)
      modifies `versions, `nextVersion
      ensures version == old(nextVersion) && View() == StoreDraft(old(View()), declared, schema)
    {
      version := nextVersion;
      versions := versions[version := Row(Draft, schema, declared)];
      nextVersion := nextVersion + 1;
    }

    /** The publish gate: a loop over the active gateways. */
    method AssertSchemaV2Publishable(policy: Policy, now: real) returns (failure: Option<Failure>)
      ensures failure.None? <==> V2Publishable(View(), policy, now)
      ensures failure.Some? ==>
                failure.value == if |Active(View(), policy, now)| < policy.minActive then TooFewGateways
                    else UpgradeRequired
    {
      var active := Active(View(), policy, now);
      if |active| < policy.minActive { return Some(TooFewGateways); }
      var left := active;
      while left != {}
        invariant left <= active && forall g :: g in active - left ==> SpeaksV2(View(), g)
        decreases left
      {
        var g :| g in left;
        if instances[g].envelope < 2 || 2 !in instances[g].schemas { return Some(UpgradeRequired); }
        var last := LatestAck(acks, g);
        if last.None? || !last.value.adopted || last.value.id.envelope < 2 || last.value.id.schema < 2 {
          return Some(UpgradeRequired);
        }
        left := left - {g};
      }
      return None;
    }

    /** Publishing runs in a transaction: a refusal also takes back the draft stored on the spot. */
    method PublishLatest(policy: Policy, compiled: Declared, now: real) returns (r: Result<nat, Failure>)
      modifies this
      ensures (View(), r) == Publish(old(View()), policy, compiled, now)
    {
      PublicationDraftExists(View(), compiled);
      var before := View();
      var version := HighestBelow(View(), nextVersion, Draft);
      if version <= MaxPublished(View()) { version := InsertDraft(compiled, 2); }
      if RequiresV2(versions[version]) {
        var failure := AssertSchemaV2Publishable(policy, now);
        if failure.Some? {
          versions, nextVersion := before.versions, before.nextVersion;
          return Err(failure.value);
        }
      }
      versions := versions[version := versions[version].(status := Published)];
      return Ok(version);
    }

    method UpsertGatewayHeartbeat(g: GatewayId, schemas: set<nat>, envelope: nat, now: real)
      modifies `instances
      ensures View() == Heartbeat(old(View()), g, schemas, envelope, now)
    {
      instances := instances[g := Instance(schemas, envelope, now)];
    }

    /** The snapshot route: record what the request advertises, then answer from the record. */
    method SnapshotEnvelope(g: GatewayId, schemas: set<nat>, envelope: nat, now: real)
      returns (r: Result<(Identity, Runtime), Failure>)
      modifies `instances
      ensures MaxPublished(old(View())) == 0 ==> r == Err(NotFound) && View() == old(View())
      ensures MaxPublished(old(View())) > 0 ==>
                && View() == (if schemas == {} then old(View()) else Heartbeat(old(View()), g, schemas, envelope, now))
                && r == Envelope(View(), g)
      ensures r.Ok? ==> r.value.0.version == MaxPublished(old(View())) && Carries(View(), r.value.0.version, r.value.1)
    {
      var v := MaxPublished(View());
      if v == 0 { return Err(NotFound); }
      if schemas != {} { UpsertGatewayHeartbeat(g, schemas, envelope, now); }
      assert MaxPublished(View()) == v by { SamePublished(old(View()), View(), nextVersion); }
      EnvelopeCarries(View(), g);
      hide Carries;
      var known, version := {1}, 1;
      if g in instances { known, version := instances[g].schemas, instances[g].envelope; }
      var row := versions[v];
      var capable := version >= 2 && 2 in known;
      if row.declared.v2Only && !capable { return Err(UpgradeRequired); }
      var v2 := capable && row.schema >= 2;
      var runtime := if v2 then Materialize(View(), row.declared) else MaterializeLegacy(View(), row.declared);
      if runtime.None? { return Err(MissingCredential); }
      var checksum := OfRuntime(runtime.value);
      if !v2 { return Ok((Identity(v, 1, checksum, None, checksum, 1), runtime.value)); }
      return Ok((Identity(v, row.schema, OfDeclared(row.declared), Some(RevisionsOf(runtime.value.credentials)),
          checksum, 2),
                 runtime.value));
    }

    method PersistGatewayAck(ack: Ack) returns (failure: Option<Failure>)
      modifies `acks
      ensures (View(), failure) == PersistAck(old(View()), ack)
    {
      if ack.id.envelope >= 2 {
        if ack.gateway !in instances || instances[ack.gateway].envelope < 2
            || ack.id.schema !in instances[ack.gateway].schemas {
          return Some(CapabilityMismatch);
        }
        if ack.id.version !in versions { return Some(NotFound); }
        var row := versions[ack.id.version];
        if row.status != Published { return Some(NotPublished); }
        var digest := StoredDigest(View(), row.declared);
        if digest.None? { return Some(MissingCredential); }
        var runtime := Materialize(View(), row.declared);
        if runtime.None? { return Some(MissingCredential); }
        if row.schema != ack.id.schema || OfDeclared(row.declared) != ack.id.config || digest != ack.id.credential
           || OfRuntime(runtime.value) != ack.id.runtime {
          return Some(IdentityMismatch);
        }
      }
      acks := acks + [ack];
      return None;
    }
  }

  lemma {:induction false} SamePublished(a: Db, b: Db, bound: nat)
    requires a.versions == b.versions
    ensures HighestBelow(a, bound, Published) == HighestBelow(b, bound, Published)
  {
    if bound > 0 { SamePublished(a, b, bound - 1); }
  }
}
