/** Which ids and texts the record of an operation mentions. */
module References {
  import opened Model
  import opened ProvenanceIndex

  lemma FieldMentions(fields: seq<Field>, k: nat, id: Id)
    requires k < |fields| && RefsId(fields[k].value, id)
    ensures RefsId(Dict(fields), id)
  {
  }

  lemma ListMentions(ids: seq<Id>, id: Id)
    ensures RefsId(Strs(ids), id) <==> id in ids
  {
    if id in ids {
      var k :| 0 <= k < |ids| && ids[k] == id;
      assert RefsId(Strs(ids).items[k], id);
    }
  }

  lemma TextMentions(s: Option<string>, id: Id)
    ensures RefsId(OptStr(s), id) <==> s == Some(id)
  {
  }

  /** The ids that an object stands for or refers to. */
  function Referred(o: Obj): set<Id> {
    {o.id} + (set x | x in o.body.supersedes) + (set x | x in o.body.derivedFrom) + (set x | x in o.contradicts) +
    (set x | x in o.spaces) + (set x | x in o.body.evidence) +
    Given(o.body.source) + Given(o.body.claimId) + Given(o.body.sourceEntity) + Given(o.body.targetEntity)
  }

  function Given(id: Option<Id>): set<Id> {
    if id.Some? then {id.value} else {}
  }

  lemma FirstFields(o: Obj)
    ensures var fields := ObjJson(o).fields;
            |fields| > 1 && fields[0].value == Str(o.id) && fields[1].value == Strs(o.body.supersedes)
  {
  }

  lemma SourceField(o: Obj)
    ensures |ObjJson(o).fields| > 6 && ObjJson(o).fields[6].value == OptStr(o.body.source)
  {
  }

  lemma DerivedField(o: Obj)
    ensures |ObjJson(o).fields| > 8 && ObjJson(o).fields[8].value == Strs(o.body.derivedFrom)
  {
  }

  lemma ContradictsField(o: Obj)
    ensures |ObjJson(o).fields| > 9 && ObjJson(o).fields[9].value == Strs(o.contradicts)
  {
  }

  lemma SpacesField(o: Obj)
    ensures |ObjJson(o).fields| > 10 && ObjJson(o).fields[10].value == Strs(o.spaces)
  {
  }

  lemma LaterFields(o: Obj)
    ensures var fields := ObjJson(o).fields;
            && |fields| > 21 && fields[19].value == OptStr(o.body.claimId) && fields[21].value == Strs(o.body.evidence)
  {
  }

  lemma EndFields(o: Obj)
    ensures var fields := ObjJson(o).fields;
            && |fields| > 23 && fields[22].value == OptStr(o.body.sourceEntity)
            && fields[23].value == OptStr(o.body.targetEntity)
  {
  }

  lemma ListFieldMentions(fields: seq<Field>, k: nat, ids: seq<Id>, id: Id)
    requires k < |fields| && fields[k].value == Strs(ids) && id in ids
    ensures RefsId(Dict(fields), id)
  {
    ListMentions(ids, id);
    FieldMentions(fields, k, id);
  }

  /** The record of an object mentions every id that the object refers to. */
  lemma ReferredAreMentioned(o: Obj, id: Id)
    requires id in Referred(o)
    ensures RefsId(PayloadJson(Whole(o)), id)
  {
    var fields := ObjJson(o).fields;
    FirstFields(o);
    SourceField(o);
    DerivedField(o);
    ContradictsField(o);
    SpacesField(o);
    LaterFields(o);
    EndFields(o);
    ReferringFields(o, fields, id);
  }

  lemma ReferringFields(o: Obj, fields: seq<Field>, id: Id)
    requires id in Referred(o) && |fields| > 23
    requires fields[0].value == Str(o.id) && fields[6].value == OptStr(o.body.source)
    requires fields[1].value == Strs(o.body.supersedes) && fields[8].value == Strs(o.body.derivedFrom)
    requires fields[9].value == Strs(o.contradicts) && fields[10].value == Strs(o.spaces)
    requires fields[19].value == OptStr(o.body.claimId) && fields[21].value == Strs(o.body.evidence)
    requires fields[22].value == OptStr(o.body.sourceEntity) && fields[23].value == OptStr(o.body.targetEntity)
    ensures RefsId(Dict(fields), id)
  {
    if id in o.body.supersedes { ListFieldMentions(fields, 1, o.body.supersedes, id); }
    else if id in o.body.derivedFrom { ListFieldMentions(fields, 8, o.body.derivedFrom, id); }
    else if id in o.contradicts { ListFieldMentions(fields, 9, o.contradicts, id); }
    else if id in o.spaces { ListFieldMentions(fields, 10, o.spaces, id); }
    else if id in o.body.evidence { ListFieldMentions(fields, 21, o.body.evidence, id); }
    else {
      var k := if id == o.id then 0 else if o.body.source == Some(id) then 6
               else if o.body.claimId == Some(id) then 19 else if o.body.sourceEntity == Some(id) then 22 else 23;
      FieldMentions(fields, k, id);
    }
  }

  /** What the record of a change mentions, its reasons and notes being texts like any other. */
  predicate ChangeNames(p: Payload, x: string) {
    match p
    case FactClosed(f, _, _, reason, replacement) => x == f || reason == Some(x) || replacement == Some(x)
    case FactConfirm(f, source, _) => x == f || source == Some(x)
    case Contradiction(a, b, note) => x == a || x == b || note == Some(x)
    case Merge(c, duplicates, aliases) => x == c || x in duplicates || x in aliases
    case Revoke(g, space, agent) => x == g || x == space || x == agent
    case Place(o, destination, spaces, who, reason) =>
      x == o || x == destination || x in spaces || x == who || reason == Some(x)
    case ClaimClosed(c, _, _, reason) => x == c || reason == Some(x)
    case Attach(c, e, _) => x == c || x == e
    case Govern(c, reason) => x == c || reason == Some(x)
    case _ => false
  }

  /** The record of a change mentions exactly the ids and texts that it carries. */
  lemma ChangeMentions(p: Payload, x: string)
    requires !p.Whole? && !p.Split?
    ensures RefsId(PayloadJson(p), x) <==> ChangeNames(p, x)
  {
    if p.Merge? || p.Place? {
      ListingMentions(p, x);
    } else if p.FactClosed? || p.FactConfirm? || p.Contradiction? {
      FactChangeMentions(p, x);
    } else {
      ClaimChangeMentions(p, x);
    }
  }

  lemma ListingMentions(p: Payload, x: string)
    requires p.Merge? || p.Place?
    ensures RefsId(PayloadJson(p), x) <==> ChangeNames(p, x)
  {
    match p
    case Merge(c, duplicates, aliases) =>
      ThreeFields(PayloadJson(p).fields, x);
      ListMentions(duplicates, x);
      ListMentions(aliases, x);
    case Place(o, destination, spaces, who, reason) =>
      FiveFields(PayloadJson(p).fields, x);
      ListMentions(spaces, x);
  }

  lemma FactChangeMentions(p: Payload, x: string)
    requires p.FactClosed? || p.FactConfirm? || p.Contradiction?
    ensures RefsId(PayloadJson(p), x) <==> ChangeNames(p, x)
  {
    if p.FactClosed? {
      FourFields(PayloadJson(p).fields, x);
    } else {
      ThreeFields(PayloadJson(p).fields, x);
    }
  }

  lemma ClaimChangeMentions(p: Payload, x: string)
    requires p.Revoke? || p.ClaimClosed? || p.Attach? || p.Govern?
    ensures RefsId(PayloadJson(p), x) <==> ChangeNames(p, x)
  {
    if p.Revoke? || p.ClaimClosed? {
      ThreeFields(PayloadJson(p).fields, x);
    } else {
      TwoFields(PayloadJson(p).fields, x);
    }
  }

  lemma TwoFields(f: seq<Field>, x: string)
    requires |f| == 2
    ensures RefsId(Dict(f), x) <==> RefsId(f[0].value, x) || RefsId(f[1].value, x)
  {
  }

  lemma ThreeFields(f: seq<Field>, x: string)
    requires |f| == 3
    ensures RefsId(Dict(f), x) <==> RefsId(f[0].value, x) || RefsId(f[1].value, x) || RefsId(f[2].value, x)
  {
  }

  lemma FourFields(f: seq<Field>, x: string)
    requires |f| == 4
    ensures RefsId(Dict(f), x) <==>
            RefsId(f[0].value, x) || RefsId(f[1].value, x) || RefsId(f[2].value, x) || RefsId(f[3].value, x)
  {
  }

  lemma FiveFields(f: seq<Field>, x: string)
    requires |f| == 5
    ensures RefsId(Dict(f), x) <==>
            RefsId(f[0].value, x) || RefsId(f[1].value, x) || RefsId(f[2].value, x) || RefsId(f[3].value, x) ||
            RefsId(f[4].value, x)
  {
  }
}
