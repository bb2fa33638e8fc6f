// `templates.schemas.ts`: the list query (document type and the `active`
// flag read from text), and the create and update bodies.
module TemplateSchemas {
  import opened Common
  import opened Store
  import opened Zod
  import DocumentsService

  /** `z.nativeEnum(DocumentType)` on a string. */
  function ParseDocType(s: string): (r: Option<DocumentType>)
    ensures r.Some? ==> DocumentsService.TypeName(r.value) == s
  {
    if s == "GENERAL_DECLARATION" then Some(GENERAL_DECLARATION)
    else if s == "PASSENGER_MANIFEST" then Some(PASSENGER_MANIFEST)
    else if s == "CREW_LIST" then Some(CREW_LIST)
    else if s == "BAGGAGE_REPORT" then Some(BAGGAGE_REPORT)
    else None
  }

  /** Every type's own name parses back to it. */
  lemma ParseTypeName(t: DocumentType)
    ensures ParseDocType(DocumentsService.TypeName(t)) == Some(t)
  {
  }

  predicate DocTypeOk(body: Body, k: string)
  {
    IsStr(body, k) && ParseDocType(body[k].s).Some?
  }

  datatype TemplateQuery = TemplateQuery(docType: Option<DocumentType>, active: Option<bool>)

  /** `active` is text: exactly `"true"` means true, and every other string
      (`"TRUE"`, `"1"`, `"yes"`) means false. */
  function ListTemplatesQuery(query: Body): (r: Parsed<TemplateQuery>)
    ensures r.Accepted? <==> ("type" in query ==> DocTypeOk(query, "type")) && ("active" in query ==> query["active"].JStr?)
    ensures r.Accepted? ==> (r.value.docType.Some? <==> "type" in query)
    ensures r.Accepted? && r.value.docType.Some? ==> DocumentsService.TypeName(r.value.docType.value) == query["type"].s
    ensures r.Accepted? ==> (r.value.active.Some? <==> "active" in query)
    ensures r.Accepted? && r.value.active.Some? ==> (r.value.active.value <==> query["active"].s == "true")
  {
    if ("type" in query ==> DocTypeOk(query, "type")) && OptStrWithin(query, "active", 0, None) then
      var t := if "type" in query then ParseDocType(query["type"].s) else None;
      var a := OptStr(query, "active");
      Accepted(TemplateQuery(t, if a.Some? then Some(a.value == "true") else None))
    else Rejected
  }

  /** A validated new template; `version` already holds its default. */
  datatype TemplateData = TemplateData(name: string, description: Option<string>, docType: DocumentType,
                                       version: string, storageKey: string, isActive: Option<bool>)

  const DefaultVersion := "v1"

  function CreateTemplateSchema(body: Body): (r: Parsed<TemplateData>)
    ensures r.Accepted? <==>
      && IsStr(body, "name") && body["name"].s != ""
      && ("description" in body ==> body["description"].JStr?)
      && DocTypeOk(body, "type")
      && ("version" in body ==> body["version"].JStr? && body["version"].s != "")
      && IsStr(body, "storageKey") && body["storageKey"].s != ""
      && ("isActive" in body ==> body["isActive"].JBool?)
    ensures r.Accepted? ==> r.value.version == (if "version" in body then body["version"].s else DefaultVersion)
    ensures r.Accepted? ==> r.value.version != ""
    ensures r.Accepted? ==> DocumentsService.TypeName(r.value.docType) == body["type"].s
    ensures r.Accepted? ==> (r.value.isActive.Some? <==> "isActive" in body)
    ensures r.Accepted? ==> r.value.name == body["name"].s && r.value.storageKey == body["storageKey"].s
    ensures r.Accepted? ==> CarriesStr(r.value.description, body, "description")
    ensures r.Accepted? ==> CarriesBool(r.value.isActive, body, "isActive")
  {
    if && StrWithin(body, "name", 1, None)
       && OptStrWithin(body, "description", 0, None)
       && DocTypeOk(body, "type")
       && OptStrWithin(body, "version", 1, None)
       && StrWithin(body, "storageKey", 1, None)
       && OptBoolOk(body, "isActive")
    then
      Accepted(TemplateData(Str(body, "name"), OptStr(body, "description"), ParseDocType(Str(body, "type")).value,
                            OptStr(body, "version").OrElse(DefaultVersion), Str(body, "storageKey"),
                            OptBool(body, "isActive")))
    else Rejected
  }

  /** A validated update; there is no `type` among its fields. */
  datatype TemplatePatch = TemplatePatch(name: Option<string>, description: Option<string>, version: Option<string>,
                                         storageKey: Option<string>, isActive: Option<bool>)

  const UpdateKeys: set<string> := {"name", "description", "version", "storageKey", "isActive"}

  function UpdateTemplateSchema(body: Body): (r: Parsed<TemplatePatch>)
    ensures r.Accepted? <==>
      && OptStrWithin(body, "name", 1, None)
      && ("description" in body ==> body["description"].JStr?)
      && OptStrWithin(body, "version", 1, None)
      && OptStrWithin(body, "storageKey", 1, None)
      && ("isActive" in body ==> body["isActive"].JBool?)
      && PresentKeys(body, UpdateKeys) != {}
    ensures r.Accepted? ==> r.value != TemplatePatch(None, None, None, None, None)
    ensures r.Accepted? ==> (r.value.name.Some? <==> "name" in body) && (r.value.version.Some? <==> "version" in body)
    ensures r.Accepted? ==> (r.value.isActive.Some? <==> "isActive" in body)
    ensures r.Accepted? ==> CarriesStr(r.value.name, body, "name") && CarriesStr(r.value.version, body, "version")
    ensures r.Accepted? ==> CarriesStr(r.value.description, body, "description")
    ensures r.Accepted? ==> CarriesStr(r.value.storageKey, body, "storageKey")
    ensures r.Accepted? ==> CarriesBool(r.value.isActive, body, "isActive")
  {
    if && OptStrWithin(body, "name", 1, None)
       && OptStrWithin(body, "description", 0, None)
       && OptStrWithin(body, "version", 1, None)
       && OptStrWithin(body, "storageKey", 1, None)
       && OptBoolOk(body, "isActive")
       && PresentKeys(body, UpdateKeys) != {}
    then
      assert exists k :: k in body && k in UpdateKeys;
      Accepted(TemplatePatch(OptStr(body, "name"), OptStr(body, "description"), OptStr(body, "version"),
                             OptStr(body, "storageKey"), OptBool(body, "isActive")))
    else Rejected
  }

  /** A `type` in an update body is stripped: it neither changes the patch
      nor counts towards the non-empty rule. */
  lemma UpdateIgnoresType(body: Body, v: Json)
    requires "type" !in body
    ensures UpdateTemplateSchema(body["type" := v]) == UpdateTemplateSchema(body)
  {
    var b := body["type" := v];
    assert PresentKeys(b, UpdateKeys) == PresentKeys(body, UpdateKeys);
  }
}
