// `documents.service.ts`: a flight's documents, lookup by id, and the record
// a generated document gets (its storage key and metadata defaults).
module DocumentsService {
  import opened Common
  import opened Store
  import opened Ordering
  import opened AppErrors
  import FlightsService

  function TypeName(t: DocumentType): (s: string)
  {
    match t
    case GENERAL_DECLARATION => "GENERAL_DECLARATION"
    case PASSENGER_MANIFEST => "PASSENGER_MANIFEST"
    case CREW_LIST => "CREW_LIST"
    case BAGGAGE_REPORT => "BAGGAGE_REPORT"
  }

  function CreatedDesc(d: Document): seq<int> { DescNum(d.createdAtMs) }

  /** NotFound for a missing flight; otherwise the flight's documents, newest
      first, and no other flight's. */
  function ListDocuments(db: Database, flightId: string): (r: Result<seq<Document>>)
    reads db
    ensures r.Fail? <==> FlightsService.GetFlightById(db, flightId).Fail?
    ensures r.Fail? ==> r.failure == FlightsService.GetFlightById(db, flightId).failure
    ensures r.Ok? ==> forall i :: 0 <= i < |r.value| ==> r.value[i] in db.documents && r.value[i].flightId == flightId
    ensures r.Ok? ==> forall i :: 0 <= i < |db.documents| && db.documents[i].flightId == flightId ==>
                        db.documents[i] in r.value
    ensures r.Ok? ==> forall d :: multiset(r.value)[d] == if d.flightId == flightId then multiset(db.documents)[d] else 0
    ensures r.Ok? ==> forall i, j :: 0 <= i < j < |r.value| ==> r.value[i].createdAtMs >= r.value[j].createdAtMs
  {
    match FlightsService.GetFlightById(db, flightId)
    case Fail(e) => Fail(e)
    case Ok(_) =>
      var keep := (d: Document) => d.flightId == flightId;
      var sorted := SortBy(Filter(db.documents, keep), CreatedDesc);
      SortedSelection(db.documents, keep, CreatedDesc);
      NewestFirst(sorted);
      Ok(sorted)
  }

  lemma NewestFirst(s: seq<Document>)
    requires SortedBy(s, CreatedDesc)
    ensures forall i, j :: 0 <= i < j < |s| ==> s[i].createdAtMs >= s[j].createdAtMs
  {
    forall i, j | 0 <= i < j < |s| ensures s[i].createdAtMs >= s[j].createdAtMs {
      NumOrder(s[i].createdAtMs, s[j].createdAtMs);
    }
  }

  const DocumentNotFound := "Document not found"

  function GetDocument(db: Database, documentId: string): (r: Result<Document>)
    reads db
    ensures r.Ok? ==> r.value in db.documents && r.value.id == documentId
    ensures r.Fail? <==> forall i :: 0 <= i < |db.documents| ==> db.documents[i].id != documentId
    ensures r.Fail? ==> r == Throw(NotFoundError(DocumentNotFound))
  {
    match Lookup(db.documents, DocumentId, documentId)
    case None => Throw(NotFoundError(DocumentNotFound))
    case Some(d) => Ok(d)
  }

  /** The ISO timestamp with ':' and '.' replaced by '-'. */
  function Stamp(iso: string): (s: string)
    ensures |s| == |iso|
    ensures forall i :: 0 <= i < |s| ==> s[i] != ':' && s[i] != '.'
    ensures forall i :: 0 <= i < |s| && iso[i] != ':' && iso[i] != '.' ==> s[i] == iso[i]
  {
    ReplaceEach(iso, {':', '.'}, '-')
  }

  /** `documents/<flightId>/<type in lower case>-<stamp>.pdf`. */
  function StorageKey(flightId: string, t: DocumentType, iso: string): (k: string)
  {
    "documents/" + flightId + "/" + Lower(TypeName(t)) + "-" + Stamp(iso) + ".pdf"
  }

  /** The key is a `.pdf` under the flight's own folder, and its file name
      carries the type in lower case. */
  lemma StorageKeyShape(flightId: string, t: DocumentType, iso: string)
    ensures var k := StorageKey(flightId, t, iso);
      && StartsWith(k, "documents/" + flightId + "/")
      && |k| >= 4 && k[|k| - 4..] == ".pdf"
      && OccursAt(k, Lower(TypeName(t)) + "-", |"documents/" + flightId + "/"|)
  {
    var k := StorageKey(flightId, t, iso);
    var prefix := "documents/" + flightId + "/";
    var name := Lower(TypeName(t)) + "-";
    assert k == prefix + (name + (Stamp(iso) + ".pdf"));
    assert k[..|prefix|] == prefix;
    assert k[|prefix|..|prefix| + |name|] == name;
    assert k[|k| - 4..] == ".pdf";
  }

  /** Two documents of the same type for the same flight differ in key when
      their timestamps differ in a position that is not ':' or '.'. */
  lemma StorageKeyDistinguishesStamps(flightId: string, t: DocumentType, iso1: string, iso2: string, i: nat)
    requires |iso1| == |iso2| && i < |iso1| && iso1[i] != iso2[i]
    requires iso1[i] !in {':', '.'} && iso2[i] !in {':', '.'}
    ensures StorageKey(flightId, t, iso1) != StorageKey(flightId, t, iso2)
  {
    var prefix := "documents/" + flightId + "/" + Lower(TypeName(t)) + "-";
    var k1, k2 := StorageKey(flightId, t, iso1), StorageKey(flightId, t, iso2);
    assert k1 == prefix + Stamp(iso1) + ".pdf" && k2 == prefix + Stamp(iso2) + ".pdf";
    assert k1[|prefix| + i] == Stamp(iso1)[i];
    assert k2[|prefix| + i] == Stamp(iso2)[i];
  }

  /** The validated request: the type, and the optional template version and options. */
  datatype GenerateDocumentInput = GenerateDocumentInput(docType: DocumentType,
                                                         templateVersion: Option<string>,
                                                         options: Option<map<string, Json>>)

  function DocumentMetadata(input: GenerateDocumentInput): (m: Json)
    ensures m.JObj? && m.fields.Keys == {"templateVersion", "options"}
    ensures m.fields["templateVersion"] == JStr(input.templateVersion.OrElse("default"))
    ensures m.fields["options"] == JObj(input.options.OrElse(map[]))
  {
    JObj(map["templateVersion" := JStr(input.templateVersion.OrElse("default")),
             "options" := JObj(input.options.OrElse(map[]))])
  }

  /** NotFound for a missing flight, writing nothing; otherwise one GENERATED
      row is appended for this flight, generated by `userId` at `nowMs`.
      `iso` is the time read for the key, as `toISOString()` renders it; `id`
      is the fresh key. */
  method GenerateDocument(db: Database, flightId: string, input: GenerateDocumentInput, userId: string,
                          iso: string, nowMs: int, id: string)
    returns (r: Result<Document>)
    requires db.Valid() && FindBy(db.documents, DocumentId, id).None?
    modifies db`documents
    ensures db.Valid()
    ensures r.Fail? <==> FlightsService.GetFlightById(db, flightId).Fail?
    ensures r.Fail? ==> r.failure == FlightsService.GetFlightById(db, flightId).failure
                        && db.documents == old(db.documents)
    ensures r.Ok? ==> db.documents == old(db.documents) + [r.value]
    ensures r.Ok? ==> r.value == Document(id, flightId, input.docType, "GENERATED",
                                          StorageKey(flightId, input.docType, iso),
                                          DocumentMetadata(input), userId, nowMs, nowMs)
  {
    var flight := FlightsService.GetFlightById(db, flightId);
    if flight.Fail? {
      return Fail(flight.failure);
    }
    var d := Document(id, flightId, input.docType, "GENERATED", StorageKey(flightId, input.docType, iso),
                      DocumentMetadata(input), userId, nowMs, nowMs);
    UniqueAfterAppend(db.documents, DocumentId, d);
    db.documents := db.documents + [d];
    r := Ok(d);
  }
}
