/**
  The mock SharePoint route: `GET /api/sharepoint?type=...&query=...` lists
  sample documents or reports whose fields contain the query, ignoring ASCII
  case, and answers 400 for any other type. The one-second simulated delay is
  not modelled.
*/
module SharePoint {
  import opened Wrappers
  import opened Strings
  import opened Seqs

  /** `modified` is an ISO-8601 timestamp kept as text; `size` is in bytes. */
  datatype Document = Document(id: string, name: string, path: string, modified: string, size: nat)

  /** `category` is the record's `type` field (a reserved word in Dafny). */
  datatype Report = Report(id: string, name: string, created: string, category: string)

  /** The JSON body and its status: 200 for the two lists, the given status for an error. */
  datatype Response =
    | DocumentList(documents: seq<Document>)
    | ReportList(reports: seq<Report>)
    | ErrorResponse(status: nat, error: string)

  const BadRequest: nat := 400
  const InvalidType: string := "Invalid request type"

  const Doc1 := Document("doc1", "Legal Contract Template.docx", "/Documents/Legal/Templates/", "2023-04-15T10:30:00Z", 245000)
  const Doc2 := Document("doc2", "Client Agreement.pdf", "/Documents/Clients/", "2023-04-10T14:20:00Z", 1200000)
  const Doc3 := Document("doc3", "Compliance Guidelines.pdf", "/Documents/Compliance/", "2023-03-22T09:15:00Z", 3400000)
  const Doc4 := Document("doc4", "Case Study - Intellectual Property.docx", "/Documents/Case Studies/", "2023-04-05T16:45:00Z", 520000)
  const Doc5 := Document("doc5", "Legal Research Notes.docx", "/Documents/Research/", "2023-04-18T11:10:00Z", 180000)

  /** The sample documents, in the order the route lists them. */
  const DocumentCatalogue: seq<Document> := [Doc1, Doc2, Doc3, Doc4, Doc5]

  const Rep1 := Report("rep1", "Monthly Activity Summary - March 2023", "2023-04-02T08:00:00Z", "monthly")
  const Rep2 := Report("rep2", "Client Interaction Analysis Q1 2023", "2023-04-05T14:30:00Z", "quarterly")
  const Rep3 := Report("rep3", "Document Usage Statistics", "2023-04-10T09:45:00Z", "analytics")

  /** The sample reports, in the order the route lists them. */
  const ReportCatalogue: seq<Report> := [Rep1, Rep2, Rep3]

  function Status(r: Response): nat
  {
    if r.ErrorResponse? then r.status else 200
  }

  predicate DocumentMatches(d: Document, query: string)
  {
    Contains(Lower(d.name), Lower(query)) || Contains(Lower(d.path), Lower(query))
  }

  predicate ReportMatches(r: Report, query: string)
  {
    Contains(Lower(r.name), Lower(query)) || Contains(Lower(r.category), Lower(query))
  }

  function DocumentFilter(query: string): Document -> bool
  {
    (d: Document) => DocumentMatches(d, query)
  }

  function ReportFilter(query: string): Report -> bool
  {
    (r: Report) => ReportMatches(r, query)
  }

  /** `searchParams.get("query") || ""`: a missing query reads as the empty string. */
  function QueryText(query: Option<string>): string
  {
    if query.Some? then query.value else ""
  }

  /** The `documents` branch: `catalogue.filter(...)` on name or path. */
  function ListDocuments(catalogue: seq<Document>, query: string): seq<Document>
  {
    Filter(catalogue, DocumentFilter(query))
  }

  /** The `reports` branch: `catalogue.filter(...)` on name or type. */
  function ListReports(catalogue: seq<Report>, query: string): seq<Report>
  {
    Filter(catalogue, ReportFilter(query))
  }

  /**
    The route's dispatch on `type` over given catalogues: the `documents`
    and `reports` branches filter their catalogue, any other type (or none)
    is a 400 error and never a list.
  */
  function Respond(kind: Option<string>, query: string, documents: seq<Document>, reports: seq<Report>): (r: Response)
    ensures r.ErrorResponse? <==> kind != Some("documents") && kind != Some("reports")
    ensures r.ErrorResponse? ==> Status(r) == BadRequest && r.error == InvalidType
    ensures r.DocumentList? ==> kind == Some("documents") && |r.documents| <= |documents|
    ensures r.ReportList? ==> kind == Some("reports") && |r.reports| <= |reports|
  {
    if kind == Some("documents") then DocumentList(ListDocuments(documents, query))
    else if kind == Some("reports") then ReportList(ListReports(reports, query))
    else ErrorResponse(BadRequest, InvalidType)
  }

  /** `GET /api/sharepoint`, on its two query parameters (`None` when absent). */
  function Get(kind: Option<string>, query: Option<string>): Response
  {
    Respond(kind, QueryText(query), DocumentCatalogue, ReportCatalogue)
  }

  /** The answer never holds more records than the catalogue: five documents, three reports. */
  lemma GetBounded(kind: Option<string>, query: Option<string>)
    ensures Get(kind, query).DocumentList? ==> |Get(kind, query).documents| <= 5
    ensures Get(kind, query).ReportList? ==> |Get(kind, query).reports| <= 3
  {
  }

  /** Any `type` other than `documents` and `reports`, including a missing one, is rejected with 400. */
  lemma InvalidTypeRejected(kind: Option<string>, query: Option<string>)
    requires kind != Some("documents") && kind != Some("reports")
    ensures Get(kind, query) == ErrorResponse(400, "Invalid request type")
    ensures Status(Get(kind, query)) == 400
  {
  }

  /**
    The documents listed are, in catalogue order and unchanged, exactly the
    catalogue documents whose lower-cased name or path contains the
    lower-cased query.
  */
  lemma ListDocumentsSpec(catalogue: seq<Document>, query: string)
    ensures var ds := ListDocuments(catalogue, query);
      Subsequence(ds, catalogue) &&
      forall d :: d in ds <==>
        d in catalogue && (Contains(Lower(d.name), Lower(query)) || Contains(Lower(d.path), Lower(query)))
  {
    FilterSubsequence(catalogue, DocumentFilter(query));
    forall d
      ensures d in ListDocuments(catalogue, query) <==>
        d in catalogue && (Contains(Lower(d.name), Lower(query)) || Contains(Lower(d.path), Lower(query)))
    {
      FilterMembership(catalogue, DocumentFilter(query), d);
    }
  }

  /**
    The reports listed are, in catalogue order and unchanged, exactly the
    catalogue reports whose lower-cased name or type contains the lower-cased
    query.
  */
  lemma ListReportsSpec(catalogue: seq<Report>, query: string)
    ensures var rs := ListReports(catalogue, query);
      Subsequence(rs, catalogue) &&
      forall r :: r in rs <==>
        r in catalogue && (Contains(Lower(r.name), Lower(query)) || Contains(Lower(r.category), Lower(query)))
  {
    FilterSubsequence(catalogue, ReportFilter(query));
    forall r
      ensures r in ListReports(catalogue, query) <==>
        r in catalogue && (Contains(Lower(r.name), Lower(query)) || Contains(Lower(r.category), Lower(query)))
    {
      FilterMembership(catalogue, ReportFilter(query), r);
    }
  }

  /** An empty query lists the whole catalogue. */
  lemma EmptyQueryListsAll(documents: seq<Document>, reports: seq<Report>)
    ensures ListDocuments(documents, "") == documents
    ensures ListReports(reports, "") == reports
  {
    forall i | 0 <= i < |documents| ensures DocumentFilter("")(documents[i]) {
      ContainsEmpty(Lower(documents[i].name), Lower(""));
    }
    FilterKeepsAll(documents, DocumentFilter(""));
    forall i | 0 <= i < |reports| ensures ReportFilter("")(reports[i]) {
      ContainsEmpty(Lower(reports[i].name), Lower(""));
    }
    FilterKeepsAll(reports, ReportFilter(""));
  }

  /**
    `type=documents` answers with the matching catalogue documents; a missing
    query lists all five.
  */
  lemma DocumentsRequest(query: Option<string>)
    ensures Get(Some("documents"), query) == DocumentList(ListDocuments(DocumentCatalogue, QueryText(query)))
    ensures query.None? ==> Get(Some("documents"), query) == DocumentList(DocumentCatalogue)
  {
    EmptyQueryListsAll(DocumentCatalogue, []);
  }

  /**
    `type=reports` answers with the matching catalogue reports; a missing
    query lists all three.
  */
  lemma ReportsRequest(query: Option<string>)
    ensures Get(Some("reports"), query) == ReportList(ListReports(ReportCatalogue, QueryText(query)))
    ensures query.None? ==> Get(Some("reports"), query) == ReportList(ReportCatalogue)
  {
    EmptyQueryListsAll([], ReportCatalogue);
  }

  /** Filtering five documents of which only the first and last match. */
  lemma FilterFirstAndLast(ds: seq<Document>, query: string)
    requires |ds| == 5
    requires DocumentMatches(ds[0], query) && DocumentMatches(ds[4], query)
    requires !DocumentMatches(ds[1], query) && !DocumentMatches(ds[2], query) && !DocumentMatches(ds[3], query)
    ensures ListDocuments(ds, query) == [ds[0], ds[4]]
  {
    var f := DocumentFilter(query);
    assert Filter(ds[4..], f) == [ds[4]] + Filter(ds[5..], f) by {
      assert ds[4..][0] == ds[4] && ds[4..][1..] == ds[5..];
    }
    assert Filter(ds[3..], f) == Filter(ds[4..], f) by {
      assert ds[3..][0] == ds[3] && ds[3..][1..] == ds[4..];
    }
    assert Filter(ds[2..], f) == Filter(ds[3..], f) by {
      assert ds[2..][0] == ds[2] && ds[2..][1..] == ds[3..];
    }
    assert Filter(ds[1..], f) == Filter(ds[2..], f) by {
      assert ds[1..][0] == ds[1] && ds[1..][1..] == ds[2..];
    }
  }

  lemma LegalQuery()
    ensures Lower("legal") == "legal" && UpperChar('g') == 'G'
  {
  }

  /** doc1 and doc5 start with "Legal". */
  lemma LegalFirstAndLast()
    ensures DocumentMatches(Doc1, "legal") && DocumentMatches(Doc5, "legal")
  {
    LegalQuery();
    assert Lower("Legal") == "legal";
    assert Doc1.name[..5] == "Legal";
    FoundAtStart(Doc1.name, "legal");
    assert Doc5.name[..5] == "Legal";
    FoundAtStart(Doc5.name, "legal");
  }

  /** "legal" is not in the lower-cased `s` when `s` has no "g" or "G". */
  lemma NoLegalWithoutG(s: string)
    requires 'g' !in s && 'G' !in s
    ensures !Contains(Lower(s), Lower("legal"))
  {
    LegalQuery();
    NotFoundWithoutLetter(s, "legal", 2);
  }

  /**
    "legal" is not in the lower-cased `x + [m] + y` when `m` is its only "g"
    or "G" and the character two places before `m` is not an "l" or "L".
  */
  lemma NoLegalAtOnlyG(s: string, x: string, m: char, y: string)
    requires s == x + [m] + y && |x| >= 2
    requires 'g' !in x + y && 'G' !in x + y
    requires LowerChar(x[|x| - 2]) != 'l'
    ensures !Contains(Lower(s), Lower("legal"))
  {
    LegalQuery();
    NotFoundAtOnlyLetter(s, x, m, y, "legal", 2);
  }

  /*
    The `...Letters` lemmas below each read one sample string through a
    parameter equal to its literal, and hand back only letter facts. The
    lemmas that reason about `Contains` never see a long literal, whose
    character-by-character unfolding would make their proofs very expensive;
    one lemma per literal keeps each unfolding in a proof of its own.
  */

  /** doc2's only "g" is not two places after an "l", and its path has none. */
  lemma LegalNotDoc2()
    ensures !DocumentMatches(Doc2, "legal")
  {
    var x, m, y := Doc2NameLetters(Doc2.name);
    NoLegalAtOnlyG(Doc2.name, x, m, y);
    Doc2PathLetters(Doc2.path);
    NoLegalWithoutG(Doc2.path);
  }

  lemma Doc2NameLetters(s: string) returns (x: string, m: char, y: string)
    requires s == "Client Agreement.pdf"
    ensures s == x + [m] + y && |x| >= 2
    ensures 'g' !in x + y && 'G' !in x + y
    ensures LowerChar(x[|x| - 2]) != 'l'
  {
    x, m, y := "Client A", 'g', "reement.pdf";
    assert s == x + [m] + y;
  }

  lemma Doc2PathLetters(s: string)
    requires s == "/Documents/Clients/"
    ensures 'g' !in s
    ensures 'G' !in s
  {
  }

  /** doc3's only "G" is not two places after an "l", and its path has none. */
  lemma LegalNotDoc3()
    ensures !DocumentMatches(Doc3, "legal")
  {
    var x, m, y := Doc3NameLetters(Doc3.name);
    NoLegalAtOnlyG(Doc3.name, x, m, y);
    Doc3PathLetters(Doc3.path);
    NoLegalWithoutG(Doc3.path);
  }

  lemma Doc3NameLetters(s: string) returns (x: string, m: char, y: string)
    requires s == "Compliance Guidelines.pdf"
    ensures s == x + [m] + y && |x| >= 2
    ensures 'g' !in x + y && 'G' !in x + y
    ensures LowerChar(x[|x| - 2]) != 'l'
  {
    x, m, y := "Compliance ", 'G', "uidelines.pdf";
    assert s == x + [m] + y;
  }

  lemma Doc3PathLetters(s: string)
    requires s == "/Documents/Compliance/"
    ensures 'g' !in s
    ensures 'G' !in s
  {
  }

  /** doc4 has no "g" at all. */
  lemma LegalNotDoc4()
    ensures !DocumentMatches(Doc4, "legal")
  {
    Doc4NameLetters(Doc4.name);
    Doc4PathLetters(Doc4.path);
    NoLegalWithoutG(Doc4.name);
    NoLegalWithoutG(Doc4.path);
  }

  lemma Doc4NameLetters(s: string)
    requires s == "Case Study - Intellectual Property.docx"
    ensures 'g' !in s
    ensures 'G' !in s
  {
  }

  lemma Doc4PathLetters(s: string)
    requires s == "/Documents/Case Studies/"
    ensures 'g' !in s
    ensures 'G' !in s
  {
  }

  /** `type=documents&query=legal` lists doc1 and doc5, in that order, and nothing else. */
  lemma LegalDocuments()
    ensures Get(Some("documents"), Some("legal")) == DocumentList([Doc1, Doc5])
  {
    LegalFirstAndLast();
    LegalNotDoc2();
    LegalNotDoc3();
    LegalNotDoc4();
    FilterFirstAndLast([Doc1, Doc2, Doc3, Doc4, Doc5], "legal");
  }
}
