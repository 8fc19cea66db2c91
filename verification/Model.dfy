/** The entities of the store: objects, ledger payloads, events and sealed records,
    with the JSON view of a payload that provenance looks into. */
module Model {
  datatype Option<+T> = None | Some(value: T)

  type Id = string
  type Time = int
  // A digest is the number its hexadecimal digits write.
  type Digest = nat

  datatype Kind =
    | Fact | Source | Entity | Relation | Decision | Episode | Observation | Document
    | Claim | Evidence | Review | Space | Grant

  /** Belief status of a fact and lifecycle status of a claim share two names. */
  datatype Status = Unset | Asserted | Open | Superseded | Retracted

  datatype Verdict = Confirm | Dispute | Reject | RequestEvidence | Abstain

  datatype Link = Link(evidence: Id, relation: EvidenceRelation)
  datatype EvidenceRelation = Supports | Contradicts | Weakens | DerivedFrom

  /** A governance marker: the record written by a governed decision, or an empty value a
      caller preset in the claim's own metadata. */
  datatype Marker = Governed(actor: string, at: Time, reason: Option<string>) | Empty

  datatype Corroboration = Corroboration(source: Option<Id>, ts: Time)
  datatype Note = Note(other: Id, note: string, ts: Time)

  datatype Meta = Meta(
    corroborations: seq<Corroboration>,
    contradictionNotes: seq<Note>,
    mergedFrom: seq<Id>,
    mergedInto: Option<Id>,
    mergedAt: Option<Time>,
    splitInto: seq<Id>,
    accepted: Option<Marker>,
    rejected: Option<Marker>,
    evidenceLinks: seq<Link>,
    relation: Option<EvidenceRelation>,
    user: Json)

  /** The fields that are written once, when the object is created. */
  datatype Body = Body(
    source: Option<Id>,
    supersedes: seq<Id>,
    derivedFrom: seq<Id>,
    subject: Option<string>,
    pred: Option<string>,
    target: Option<string>,
    validFrom: Option<Time>,
    validTo: Option<Time>,
    txFrom: Option<Time>,
    trust: real,
    claimId: Option<Id>,
    verdict: Option<Verdict>,
    contentHash: Option<string>,
    evidence: seq<Id>,
    sourceEntity: Option<Id>,
    targetEntity: Option<Id>,
    relType: Option<string>,
    texts: seq<Option<string>>,
    other: Json)

  /** A projected object. `texts` of the body are the remaining searchable fields of its kind,
      in the order the search text joins them. */
  datatype Obj = Obj(
    id: Id,
    kind: Kind,
    tenant: string,
    namespace: string,
    owner: string,
    createdAt: Time,
    body: Body,
    confidence: real,
    txTo: Option<Time>,
    status: Status,
    contradicts: seq<Id>,
    aliases: seq<string>,
    spaces: seq<Id>,
    active: bool,
    revokedAt: Option<Time>,
    meta: Meta)

  type Objects = map<Id, Obj>

  datatype Op =
    | SourceAdded | ObservationRecorded | DocumentIngested | FactAsserted | EntityAdded
    | RelationAdded | DecisionRecorded | EpisodeRecorded
    | FactSuperseded | FactRetracted | FactConfirmed | ContradictionRecorded
    | EntityMerged | EntitySplit
    | SpaceCreated | CapabilityGranted | CapabilityRevoked | KnowledgeShared | KnowledgePromoted
    | ClaimAsserted | ClaimRetracted | ClaimSuperseded | EvidenceRecorded | EvidenceAttached
    | ClaimReviewed | ClaimAccepted | ClaimRejected

  datatype Payload =
    | Whole(obj: Obj)
    | FactClosed(factId: Id, factTxTo: Option<Time>, factStatus: Status, factReason: Option<string>,
                 replacement: Option<Id>)
    | FactConfirm(confirmed: Id, confirmSource: Option<Id>, confidence: real)
    | Contradiction(first: Id, second: Id, note: Option<string>)
    | Merge(canonical: Id, duplicates: seq<Id>, mergeAliases: seq<string>)
    | Split(entity: Id, into: seq<Obj>)
    | Revoke(grantId: Id, space: Id, agent: string)
    | Place(objectId: Id, destination: Id, sourceSpaces: seq<Id>, placedBy: string,
            placeReason: Option<string>)
    | ClaimClosed(claimId: Id, claimStatus: Status, claimTxTo: Option<Time>, claimReason: Option<string>)
    | Attach(attachClaim: Id, attachEvidence: Id, attachRelation: EvidenceRelation)
    | Govern(governed: Id, governReason: Option<string>)

  /** A logical change; numbers and hashes are assigned when it is sealed. */
  datatype Event = Event(
    op: Op, ts: Time, tenant: string, namespace: string, actor: string, principal: Option<string>,
    payload: Payload)

  /** A sealed ledger record. `meta` is the one field no hash commits to. */
  datatype Record = Record(
    seqno: int,
    event: Event,
    contentHash: Digest,
    prevHash: Digest,
    entryHash: Digest,
    meta: Json)

  /******* JSON view: enumerated values are left out, since no object id equals one *******/

  datatype Json =
    | Null | Bool(b: bool) | Num(n: real) | Str(s: string)
    | Arr(items: seq<Json>)
    | Dict(fields: seq<Field>)

  datatype Field = Field(key: string, value: Json)

  function OptStr(s: Option<string>): Json {
    if s.Some? then Str(s.value) else Null
  }

  function OptTime(t: Option<Time>): Json {
    if t.Some? then Num(t.value as real) else Null
  }

  function Strs(xs: seq<string>): Json {
    Arr(seq(|xs|, i requires 0 <= i < |xs| => Str(xs[i])))
  }

  function OptStrs(xs: seq<Option<string>>): Json {
    Arr(seq(|xs|, i requires 0 <= i < |xs| => OptStr(xs[i])))
  }

  function MarkerJson(m: Option<Marker>): Json {
    match m
    case None => Null
    case Some(Empty) => Dict([])
    case Some(Governed(actor, at, reason)) =>
      Dict([Field("actor", Str(actor)), Field("at", Num(at as real)), Field("reason", OptStr(reason))])
  }

  function MetaJson(m: Meta): Json {
    Dict([
      Field("corroborations", Arr(seq(|m.corroborations|, i requires 0 <= i < |m.corroborations| =>
        Dict([Field("source", OptStr(m.corroborations[i].source)),
              Field("ts", Num(m.corroborations[i].ts as real))])))),
      Field("contradiction_notes", Arr(seq(|m.contradictionNotes|, i requires 0 <= i < |m.contradictionNotes| =>
        Dict([Field("other", Str(m.contradictionNotes[i].other)),
              Field("note", Str(m.contradictionNotes[i].note)),
              Field("ts", Num(m.contradictionNotes[i].ts as real))])))),
      Field("merged_from", Strs(m.mergedFrom)),
      Field("merged_into", OptStr(m.mergedInto)),
      Field("merged_at", OptTime(m.mergedAt)),
      Field("split_into", Strs(m.splitInto)),
      Field("accepted", MarkerJson(m.accepted)),
      Field("rejected", MarkerJson(m.rejected)),
      Field("evidence_links", Arr(seq(|m.evidenceLinks|, i requires 0 <= i < |m.evidenceLinks| =>
        Dict([Field("evidence", Str(m.evidenceLinks[i].evidence))])))),
      Field("user", m.user)])
  }

  function ObjJson(o: Obj): Json {
    Dict([
      Field("id", Str(o.id)),
      Field("supersedes", Strs(o.body.supersedes)),
      Field("tenant", Str(o.tenant)),
      Field("namespace", Str(o.namespace)),
      Field("owner", Str(o.owner)),
      Field("created_at", Num(o.createdAt as real)),
      Field("source", OptStr(o.body.source)),
      Field("confidence", Num(o.confidence)),
      Field("derived_from", Strs(o.body.derivedFrom)),
      Field("contradicts", Strs(o.contradicts)),
      Field("spaces", Strs(o.spaces)),
      Field("subject", OptStr(o.body.subject)),
      Field("predicate", OptStr(o.body.pred)),
      Field("object", OptStr(o.body.target)),
      Field("valid_from", OptTime(o.body.validFrom)),
      Field("valid_to", OptTime(o.body.validTo)),
      Field("tx_from", OptTime(o.body.txFrom)),
      Field("tx_to", OptTime(o.txTo)),
      Field("trust", Num(o.body.trust)),
      Field("claim_id", OptStr(o.body.claimId)),
      Field("content_hash", OptStr(o.body.contentHash)),
      Field("evidence", Strs(o.body.evidence)),
      Field("source_entity", OptStr(o.body.sourceEntity)),
      Field("target_entity", OptStr(o.body.targetEntity)),
      Field("rel_type", OptStr(o.body.relType)),
      Field("aliases", Strs(o.aliases)),
      Field("texts", OptStrs(o.body.texts)),
      Field("active", Bool(o.active)),
      Field("revoked_at", OptTime(o.revokedAt)),
      Field("metadata", MetaJson(o.meta)),
      Field("other", o.body.other)])
  }

  function PayloadJson(p: Payload): Json {
    match p
    case Whole(o) => ObjJson(o)
    case FactClosed(f, t, _, reason, replacement) =>
      Dict([Field("fact_id", Str(f)), Field("tx_to", OptTime(t)), Field("reason", OptStr(reason)),
            Field("replacement", OptStr(replacement))])
    case FactConfirm(f, source, c) =>
      Dict([Field("fact_id", Str(f)), Field("source", OptStr(source)), Field("confidence", Num(c))])
    case Contradiction(a, b, note) =>
      Dict([Field("fact_id", Str(a)), Field("other_id", Str(b)), Field("note", OptStr(note))])
    case Merge(c, dups, aliases) =>
      Dict([Field("canonical", Str(c)), Field("duplicates", Strs(dups)), Field("aliases", Strs(aliases))])
    case Split(e, into) =>
      Dict([Field("entity", Str(e)),
            Field("into", Arr(seq(|into|, i requires 0 <= i < |into| => ObjJson(into[i]))))])
    case Revoke(g, space, agent) =>
      Dict([Field("grant_id", Str(g)), Field("space", Str(space)), Field("agent", Str(agent))])
    case Place(o, dest, origin, who, reason) =>
      Dict([Field("object_id", Str(o)), Field("destination_space", Str(dest)),
            Field("source_spaces", Strs(origin)), Field("by", Str(who)), Field("reason", OptStr(reason))])
    case ClaimClosed(c, _, t, reason) =>
      Dict([Field("claim_id", Str(c)), Field("tx_to", OptTime(t)), Field("reason", OptStr(reason))])
    case Attach(c, e, _) =>
      Dict([Field("claim_id", Str(c)), Field("evidence_id", Str(e))])
    case Govern(c, reason) =>
      Dict([Field("claim_id", Str(c)), Field("reason", OptStr(reason))])
  }
}
