/** The public mutating operations, as guarded steps: the check of a request against the objects
    it sees, giving the events its transaction will emit. */
module Operations {
  import opened Model
  import opened Projection

  /******* Identifiers *******/

  predicate IsHex(c: char) {
    '0' <= c <= '9' || 'a' <= c <= 'f'
  }

  /** The id pattern: lower-case letters, an underscore, thirty-two hexadecimal digits. The
      pattern's end anchor also accepts one line feed after them. */
  predicate IdShape(s: string) {
    var t := if |s| > 0 && s[|s| - 1] == '\n' then s[..|s| - 1] else s;
    && |t| >= 34
    && t[|t| - 33] == '_'
    && (forall i :: 0 <= i < |t| - 33 ==> 'a' <= t[i] <= 'z')
    && (forall i :: |t| - 32 <= i < |t| ==> IsHex(t[i]))
  }

  /** A freshly minted id never looks like the id of a grant. */
  predicate Minted(id: Id) {
    IdShape(id) && !("grant_" <= id)
  }

  const SPACE_ID_LENGTH := 36

  function GrantId(space: Id, agent: string): (id: Id)
    ensures "grant_" <= id
  {
    "grant_" + (space + ("_" + agent))
  }

  /** A grant id determines its space. */
  lemma GrantIdSpace(s1: Id, a1: string, s2: Id, a2: string)
    requires |s1| == |s2| && GrantId(s1, a1) == GrantId(s2, a2)
    ensures s1 == s2
  {
    assert s1 == (s1 + ("_" + a1))[..|s1|];
    assert s1 + ("_" + a1) == GrantId(s1, a1)[6..];
    assert s2 + ("_" + a2) == GrantId(s2, a2)[6..];
  }

  /******* Requests *******/

  datatype Who = Who(tenant: string, namespace: string, agent: string, principal: Option<string>)

  /** What `supersede` may replace; an absent part keeps or defaults the old one. */
  datatype NewValue = NewValue(
    subject: Option<string>, pred: Option<string>, target: Option<string>,
    validFrom: Option<Option<Time>>, validTo: Option<Time>,
    confidence: Option<real>, meta: Meta)

  datatype Request =
    | Create(op: Op, obj: Obj)
    | Supersede(factId: Id, newId: Id, value: NewValue, source: Option<Id>, reason: Option<string>)
    | CorrectValidity(factId: Id, newId: Id, validFrom: Option<Option<Time>>, validTo: Option<Option<Time>>,
                      source: Option<Id>, reason: Option<string>)
    | Retract(factId: Id, reason: Option<string>)
    | Contradict(factId: Id, other: Id, note: Option<string>)
    | ConfirmFact(factId: Id, backing: Id, delta: real)
    | MergeEntities(canonical: Id, duplicates: seq<Id>, names: seq<string>)
    | SplitEntity(entity: Id, into: seq<Obj>)
    | GrantCapability(space: Id, agent: string, grant: Obj)
    | RevokeCapability(space: Id, agent: string)
    | PlaceObject(promote: bool, objectId: Id, destination: Id, reason: Option<string>)
    | RetractClaim(claimId: Id, reason: Option<string>)
    | AttachEvidence(claimId: Id, evidenceId: Id, relation: EvidenceRelation)
    | GovernClaim(accept: bool, claimId: Id, reason: Option<string>)

  /** A call: who asks, the clock it reads, and the outcome of the capability, ownership,
      readability and policy decisions, which this model leaves open. */
  datatype Call = Call(who: Who, ts: Time, request: Request, allowed: bool)

  /** The ids a request mints. */
  function NewIds(r: Request): set<Id> {
    match r
    case Create(_, obj) => {obj.id}
    case Supersede(_, newId, _, _, _) => {newId}
    case CorrectValidity(_, newId, _, _, _, _) => {newId}
    case SplitEntity(_, into) => set i | 0 <= i < |into| :: into[i].id
    case _ => {}
  }

  /******* Guards *******/

  predicate RefInScope(objs: Objects, who: Who, id: Id) {
    id in objs && InScope(objs[id], who.tenant, who.namespace)
  }

  predicate OptRefInScope(objs: Objects, who: Who, id: Option<Id>) {
    id.Some? ==> RefInScope(objs, who, id.value)
  }

  /** A fact in scope whose belief is still open: what may be superseded, corrected or retracted. */
  predicate OpenBelief(objs: Objects, who: Who, id: Id) {
    RefInScope(objs, who, id) && objs[id].kind == Fact && objs[id].txTo.None?
  }

  predicate OfKind(objs: Objects, who: Who, id: Id, kind: Kind) {
    RefInScope(objs, who, id) && objs[id].kind == kind
  }

  predicate SpaceOfTenant(objs: Objects, who: Who, id: Id) {
    id in objs && objs[id].kind == Space && objs[id].tenant == who.tenant
  }

  function CreatedKind(op: Op): Option<Kind> {
    match op
    case SourceAdded => Some(Source)
    case ObservationRecorded => Some(Observation)
    case DocumentIngested => Some(Document)
    case FactAsserted => Some(Fact)
    case EntityAdded => Some(Entity)
    case RelationAdded => Some(Relation)
    case DecisionRecorded => Some(Decision)
    case EpisodeRecorded => Some(Episode)
    case SpaceCreated => Some(Space)
    case ClaimAsserted => Some(Claim)
    case EvidenceRecorded => Some(Evidence)
    case ClaimReviewed => Some(Review)
    case _ => None
  }

  function FirstStatus(kind: Kind): Status {
    match kind
    case Fact => Asserted
    case Claim => Open
    case _ => Unset
  }

  /** The envelope and the lifecycle fields of an object at its creation. Its metadata is the
      caller's and may be anything. */
  predicate NewObject(o: Obj, kind: Kind, who: Who, ts: Time) {
    && o.kind == kind
    && InScope(o, who.tenant, who.namespace)
    && o.createdAt == ts
    && o.txTo.None? && o.status == FirstStatus(kind)
    && o.body.txFrom == (if kind == Fact || kind == Claim then Some(ts) else None)
    && o.contradicts == []
    && o.revokedAt.None?
    && (kind != Claim && kind != Evidence && kind != Review ==> o.spaces == [])
    && (kind == Space ==> |o.id| == SPACE_ID_LENGTH)
  }

  predicate ValidInterval(o: Obj) {
    o.body.validFrom.Some? && o.body.validTo.Some? ==> o.body.validFrom.value <= o.body.validTo.value
  }

  /** Every id a new object refers to is an object of the caller's scope. */
  predicate RefsInScope(objs: Objects, who: Who, o: Obj) {
    && OptRefInScope(objs, who, o.body.source)
    && (forall i :: 0 <= i < |o.body.derivedFrom| ==> RefInScope(objs, who, o.body.derivedFrom[i]))
    && (forall i :: 0 <= i < |o.body.evidence| ==> RefInScope(objs, who, o.body.evidence[i]))
    && OptRefInScope(objs, who, o.body.sourceEntity)
    && OptRefInScope(objs, who, o.body.targetEntity)
    && (o.kind == Relation ==> o.body.sourceEntity.Some? && o.body.targetEntity.Some?)
    && (o.body.claimId.Some? ==> OfKind(objs, who, o.body.claimId.value, Claim))
  }

  /******* The fact that replaces another *******/

  function Or<T>(x: Option<T>, d: T): T {
    if x.Some? then x.value else d
  }

  /** The replacement keeps the audience of the fact it replaces: owner, spaces, ancestry. */
  function Replacement(prior: Obj, newId: Id, ts: Time, v: NewValue, source: Option<Id>): Obj {
    Obj(newId, Fact, prior.tenant, prior.namespace, prior.owner, ts,
        prior.body.(source := if source.Some? then source else prior.body.source,
                  supersedes := [prior.id],
                  subject := if v.subject.Some? then v.subject else prior.body.subject,
                  pred := if v.pred.Some? then v.pred else prior.body.pred,
                  target := v.target,
                  validFrom := Or(v.validFrom, Some(ts)),
                  validTo := v.validTo,
                  txFrom := Some(ts)),
        Or(v.confidence, prior.confidence), None, Asserted, [], [], prior.spaces, false, None, v.meta)
  }

  /** The metadata of a correction: what it corrects and, when one is given, the reason. */
  function CorrectionMeta(factId: Id, reason: Option<string>): Meta {
    Meta([], [], [], None, None, [], None, None, [], None,
         Dict([Field("correction_of", Str(factId))] +
              if reason.Some? && reason.value != "" then [Field("reason", Str(reason.value))] else []))
  }

  function Corrected(prior: Obj, newId: Id, ts: Time, validFrom: Option<Option<Time>>,
                     validTo: Option<Option<Time>>, source: Option<Id>, reason: Option<string>): Obj {
    Obj(newId, Fact, prior.tenant, prior.namespace, prior.owner, ts,
        prior.body.(source := if source.Some? then source else prior.body.source,
                  supersedes := [prior.id],
                  validFrom := Or(validFrom, prior.body.validFrom),
                  validTo := Or(validTo, prior.body.validTo),
                  txFrom := Some(ts)),
        prior.confidence, None, Asserted, [], [], prior.spaces, false, None, CorrectionMeta(prior.id, reason))
  }

  function Raised(confidence: real, delta: real): real {
    if confidence + delta > 1.0 then 1.0 else if confidence + delta < 0.0 then 0.0 else confidence + delta
  }

  /******* Check *******/

  function EventOf(c: Call, op: Op, p: Payload): Event {
    Event(op, c.ts, c.who.tenant, c.who.namespace, c.who.agent, c.who.principal, p)
  }

  function Replace(c: Call, factId: Id, reason: Option<string>, replacement: Obj): seq<Event> {
    [EventOf(c, FactSuperseded, FactClosed(factId, Some(c.ts), Superseded, reason, Some(replacement.id))),
     EventOf(c, FactAsserted, Whole(replacement))]
  }

  predicate Guard(objs: Objects, c: Call) {
    var who := c.who;
    c.allowed &&
    match c.request
    case Create(op, obj) =>
      CreatedKind(op).Some? && NewObject(obj, CreatedKind(op).value, who, c.ts) &&
      obj.body.supersedes == [] && ValidInterval(obj) && RefsInScope(objs, who, obj)
    case Supersede(f, newId, v, source, _) =>
      OpenBelief(objs, who, f) && OptRefInScope(objs, who, source) &&
      ValidInterval(Replacement(objs[f], newId, c.ts, v, source))
    case CorrectValidity(f, newId, vf, vt, source, reason) =>
      OpenBelief(objs, who, f) && OptRefInScope(objs, who, source) &&
      ValidInterval(Corrected(objs[f], newId, c.ts, vf, vt, source, reason))
    case Retract(f, _) => OpenBelief(objs, who, f)
    case Contradict(a, b, _) => RefInScope(objs, who, a) && RefInScope(objs, who, b) && a != b
    case ConfirmFact(f, source, delta) =>
      OfKind(objs, who, f, Fact) && RefInScope(objs, who, source) && delta >= 0.0
    case MergeEntities(canonical, duplicates, _) =>
      RefInScope(objs, who, canonical) && duplicates != [] && canonical !in duplicates &&
      forall i :: 0 <= i < |duplicates| ==> RefInScope(objs, who, duplicates[i])
    case SplitEntity(entity, into) =>
      RefInScope(objs, who, entity) && into != [] &&
      (forall i :: 0 <= i < |into| ==> NewObject(into[i], Entity, who, c.ts) && into[i].body.supersedes == []) &&
      (forall i, j :: 0 <= i < j < |into| ==> into[i].id != into[j].id)
    case GrantCapability(space, agent, grant) =>
      SpaceOfTenant(objs, who, space) && NewObject(grant, Grant, who, c.ts) &&
      grant.id == GrantId(space, agent) && grant.active && grant.body.supersedes == []
    case RevokeCapability(space, _) => SpaceOfTenant(objs, who, space)
    case PlaceObject(_, placed, into, _) => RefInScope(objs, who, placed) && SpaceOfTenant(objs, who, into)
    case RetractClaim(claim, _) => OfKind(objs, who, claim, Claim) && objs[claim].status == Open
    case AttachEvidence(claim, evidence, _) =>
      OfKind(objs, who, claim, Claim) && OfKind(objs, who, evidence, Evidence)
    case GovernClaim(_, claim, _) => OfKind(objs, who, claim, Claim)
  }

  /** The events a request will emit, computed from the objects its check saw. */
  function Plan(objs: Objects, c: Call): seq<Event>
    requires Guard(objs, c)
  {
    match c.request
    case Create(op, obj) => [EventOf(c, op, Whole(obj))]
    case Supersede(f, newId, v, source, reason) =>
      Replace(c, f, reason, Replacement(objs[f], newId, c.ts, v, source))
    case CorrectValidity(f, newId, vf, vt, source, reason) =>
      Replace(c, f, reason, Corrected(objs[f], newId, c.ts, vf, vt, source, reason))
    case Retract(f, reason) =>
      [EventOf(c, FactRetracted, FactClosed(f, Some(c.ts), Retracted, reason, None))]
    case Contradict(a, b, note) => [EventOf(c, ContradictionRecorded, Contradiction(a, b, note))]
    case ConfirmFact(f, source, delta) =>
      [EventOf(c, FactConfirmed, FactConfirm(f, Some(source), Raised(objs[f].confidence, delta)))]
    case MergeEntities(canonical, duplicates, names) =>
      [EventOf(c, EntityMerged, Merge(canonical, duplicates, AddAllNew(objs[canonical].aliases, names)))]
    case SplitEntity(entity, into) => [EventOf(c, EntitySplit, Split(entity, into))]
    case GrantCapability(_, _, grant) => [EventOf(c, CapabilityGranted, Whole(grant))]
    case RevokeCapability(space, agent) =>
      [EventOf(c, CapabilityRevoked, Revoke(GrantId(space, agent), space, agent))]
    case PlaceObject(promote, placed, into, reason) =>
      [EventOf(c, if promote then KnowledgePromoted else KnowledgeShared,
               Place(placed, into, objs[placed].spaces, c.who.agent, reason))]
    case RetractClaim(claim, reason) =>
      [EventOf(c, ClaimRetracted, ClaimClosed(claim, Retracted, Some(c.ts), reason))]
    case AttachEvidence(claim, evidence, relation) =>
      [EventOf(c, EvidenceAttached, Attach(claim, evidence, relation))]
    case GovernClaim(accept, claim, reason) =>
      [EventOf(c, if accept then ClaimAccepted else ClaimRejected, Govern(claim, reason))]
  }
}
