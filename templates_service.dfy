// `templates.service.ts`: document templates filtered by type and active flag,
// ordered by type then newest version, created with defaults, and updated.
module TemplatesService {
  import opened Common
  import opened Store
  import opened Ordering
  import opened AppErrors
  import opened TemplateSchemas

  /** The Prisma `where`: `type` when given, `isActive` whenever the flag is a
      boolean, false included. */
  datatype TemplateWhere = TemplateWhere(docType: Option<DocumentType>, isActive: Option<bool>)

  function BuildWhere(q: TemplateQuery): (w: TemplateWhere)
    ensures w.docType == q.docType && w.isActive == q.active
  {
    TemplateWhere(q.docType, q.active)
  }

  predicate Matches(w: TemplateWhere, t: Template)
  {
    (w.docType.Some? ==> t.docType == w.docType.value) && (w.isActive.Some? ==> t.isActive == w.isActive.value)
  }

  /** `?active=false` selects exactly the inactive templates. */
  lemma ActiveFalseSelectsInactive(t: Template)
    ensures Matches(BuildWhere(TemplateQuery(None, Some(false))), t) <==> !t.isActive
  {
  }

  /** The position of a type in the `DocumentType` enum's order, assumed to be
      the order listed here; `orderBy: { type }` sorts by it. */
  function TypeRank(t: DocumentType): (n: nat)
    ensures n < 4
  {
    match t
    case GENERAL_DECLARATION => 0
    case PASSENGER_MANIFEST => 1
    case CREW_LIST => 2
    case BAGGAGE_REPORT => 3
  }

  lemma TypeRankInjective(a: DocumentType, b: DocumentType)
    ensures TypeRank(a) == TypeRank(b) <==> a == b
  {
  }

  function TypeThenVersionDesc(t: Template): seq<int> { AscNum(TypeRank(t.docType)) + DescText(t.version) }

  /** Exactly the matching templates; by type, and within one type by
      version, highest text first. */
  function ListTemplates(db: Database, q: TemplateQuery): (r: seq<Template>)
    reads db
    ensures forall i :: 0 <= i < |r| ==> r[i] in db.templates && Matches(BuildWhere(q), r[i])
    ensures forall i :: 0 <= i < |db.templates| && Matches(BuildWhere(q), db.templates[i]) ==> db.templates[i] in r
    ensures forall t :: multiset(r)[t] == if Matches(BuildWhere(q), t) then multiset(db.templates)[t] else 0
    ensures forall i, j :: 0 <= i < j < |r| ==>
              TypeRank(r[i].docType) <= TypeRank(r[j].docType)
              && (r[i].docType == r[j].docType ==> StrLeq(r[j].version, r[i].version))
  {
    var w := BuildWhere(q);
    var keep := (t: Template) => Matches(w, t);
    var sorted := SortBy(Filter(db.templates, keep), TypeThenVersionDesc);
    SortedSelection(db.templates, keep, TypeThenVersionDesc);
    TypeVersionOrdered(sorted);
    sorted
  }

  lemma TypeVersionOrdered(s: seq<Template>)
    requires SortedBy(s, TypeThenVersionDesc)
    ensures forall i, j :: 0 <= i < j < |s| ==>
              TypeRank(s[i].docType) <= TypeRank(s[j].docType)
              && (s[i].docType == s[j].docType ==> StrLeq(s[j].version, s[i].version))
  {
    forall i, j | 0 <= i < j < |s|
      ensures TypeRank(s[i].docType) <= TypeRank(s[j].docType)
              && (s[i].docType == s[j].docType ==> StrLeq(s[j].version, s[i].version))
    {
      assert LexLeq(TypeThenVersionDesc(s[i]), TypeThenVersionDesc(s[j]));
      AscNumThen(TypeRank(s[i].docType), TypeRank(s[j].docType), DescText(s[i].version), DescText(s[j].version));
      DescTextOrder(s[i].version, s[j].version);
    }
  }

  /** The column defaults the create applies: active unless told otherwise. */
  function NewTemplate(id: string, data: TemplateData): (t: Template)
    ensures t.id == id && t.docType == data.docType && t.version == data.version
    ensures t.isActive == data.isActive.OrElse(true)
    ensures t.name == data.name && t.description == data.description && t.storageKey == data.storageKey
  {
    Template(id, data.name, data.description, data.docType, data.version, data.storageKey,
             data.isActive.OrElse(true))
  }

  /** A body without `version` or `isActive` yields an active "v1" template. */
  lemma CreateDefaults(body: Zod.Body, id: string)
    requires CreateTemplateSchema(body).Accepted? && "version" !in body && "isActive" !in body
    ensures NewTemplate(id, CreateTemplateSchema(body).value).version == "v1"
    ensures NewTemplate(id, CreateTemplateSchema(body).value).isActive
  {
  }

  /** Appends one row; `id` is the fresh key the store generates. */
  method CreateTemplate(db: Database, data: TemplateData, id: string) returns (t: Template)
    requires db.Valid() && FindBy(db.templates, TemplateId, id).None?
    modifies db`templates
    ensures db.Valid()
    ensures t == NewTemplate(id, data) && db.templates == old(db.templates) + [t]
  {
    t := NewTemplate(id, data);
    UniqueAfterAppend(db.templates, TemplateId, t);
    db.templates := db.templates + [t];
  }

  /** Given fields win; the type is never changed by an update. */
  function PatchedTemplate(t: Template, p: TemplatePatch): (u: Template)
    ensures u.id == t.id && u.docType == t.docType
    ensures u.name == p.name.OrElse(t.name) && u.version == p.version.OrElse(t.version)
    ensures u.storageKey == p.storageKey.OrElse(t.storageKey) && u.isActive == p.isActive.OrElse(t.isActive)
    ensures u.description == if p.description.Some? then p.description else t.description
  {
    t.(name := p.name.OrElse(t.name),
       description := if p.description.Some? then p.description else t.description,
       version := p.version.OrElse(t.version), storageKey := p.storageKey.OrElse(t.storageKey),
       isActive := p.isActive.OrElse(t.isActive))
  }

  const TemplateNotFound := "Template not found"

  /** NotFound for an unknown id, writing nothing; otherwise replaced in place. */
  method UpdateTemplate(db: Database, templateId: string, patch: TemplatePatch) returns (r: Result<Template>)
    requires db.Valid()
    modifies db`templates
    ensures db.Valid()
    ensures r.Fail? <==> FindBy(old(db.templates), TemplateId, templateId).None?
    ensures r.Fail? ==> r == Throw(NotFoundError(TemplateNotFound)) && db.templates == old(db.templates)
    ensures r.Ok? ==> var i := FindBy(old(db.templates), TemplateId, templateId).value;
                      r.value == PatchedTemplate(old(db.templates)[i], patch)
                      && db.templates == old(db.templates)[i := r.value]
  {
    var found := FindBy(db.templates, TemplateId, templateId);
    if found.None? {
      return Throw(NotFoundError(TemplateNotFound));
    }
    var i := found.value;
    var u := PatchedTemplate(db.templates[i], patch);
    UniqueAfterReplace(db.templates, TemplateId, i, u);
    db.templates := db.templates[i := u];
    r := Ok(u);
  }
}
