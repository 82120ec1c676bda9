/** The Fakenodo service: the deposition metadata built from a dataset's
    metadata, and publishing and looking up records of the Fakenodo dataset
    table. */
module FakenodoServices {
  import opened Wrappers
  import opened Strings
  import opened DatasetModels

  // ---------------------------------------------------------------------------
  // Deposition metadata (`create_new_dataset`)

  /** The `metadata` dictionary sent to the repository. */
  datatype DepositionMetadata = DepositionMetadata(
    title: string,
    uploadType: string,
    publicationType: Option<string>,
    description: string,
    creators: seq<map<string, string>>,
    keywords: seq<string>,
    accessRight: string,
    license: string)

  /** "dataset" when the publication type is NONE, "publication" otherwise. */
  function UploadType(t: PublicationType): (r: string)
    ensures r == "dataset" <==> Value(t) == "none"
    ensures r == "dataset" || r == "publication"
  {
    if Value(t) == "none" then "dataset" else "publication"
  }

  /** The publication type's value, or null for NONE. */
  function DepositionPublicationType(t: PublicationType): (r: Option<string>)
    ensures r.None? <==> Value(t) == "none"
    ensures r.Some? ==> r.value == Value(t)
  {
    if Value(t) != "none" then Some(Value(t)) else None
  }

  /** One creator: always a name; an affiliation and an ORCID only when the
      author has a non-empty one. */
  function Creator(a: Author): (c: map<string, string>)
    ensures "name" in c && c["name"] == a.name
    ensures "affiliation" in c <==> Truthy(a.affiliation)
    ensures "affiliation" in c ==> c["affiliation"] == a.affiliation.value
    ensures "orcid" in c <==> Truthy(a.orcid)
    ensures "orcid" in c ==> c["orcid"] == a.orcid.value
    ensures c.Keys <= {"name", "affiliation", "orcid"}
  {
    var base := map["name" := a.name];
    var withAffiliation := if Truthy(a.affiliation) then base["affiliation" := a.affiliation.value] else base;
    if Truthy(a.orcid) then withAffiliation["orcid" := a.orcid.value] else withAffiliation
  }

  /** One creator per author, in the authors' order. */
  function Creators(authors: seq<Author>): (r: seq<map<string, string>>)
    ensures |r| == |authors|
    ensures forall i :: 0 <= i < |authors| ==> r[i] == Creator(authors[i])
  {
    seq(|authors|, i requires 0 <= i < |authors| => Creator(authors[i]))
  }

  /** The keywords: the tags split on ", " followed by "uvlhub", or only
      "uvlhub" when there are no tags. */
  function Keywords(tags: Option<string>): (r: seq<string>)
    ensures |r| >= 1 && r[|r| - 1] == "uvlhub"
    ensures !Truthy(tags) ==> r == ["uvlhub"]
    ensures Truthy(tags) ==> |r| >= 2 && Join(r[..|r| - 1], ", ") == tags.value
    ensures forall i :: 0 <= i < |r| - 1 ==> !Contains(r[i], ", ")
  {
    if !Truthy(tags) then ["uvlhub"]
    else
      var parts := Split(tags.value, ", ");
      assert (parts + ["uvlhub"])[..|parts|] == parts;
      parts + ["uvlhub"]
  }

  /** The `metadata` of `create_new_dataset`: the two publication fields
      agree with each other, one creator per author, keywords ending in
      "uvlhub", open access under CC-BY-4.0. */
  function MetadataOf(meta: DSMetaData): (m: DepositionMetadata)
    ensures m.title == meta.title && m.description == meta.description
    ensures m.uploadType == "dataset" <==> m.publicationType.None?
    ensures m.uploadType == "dataset" <==> meta.publicationType == NoneType
    ensures |m.creators| == |meta.authors|
    ensures forall i :: 0 <= i < |meta.authors| ==> "name" in m.creators[i] && m.creators[i]["name"] == meta.authors[i].name
    ensures |m.keywords| >= 1 && m.keywords[|m.keywords| - 1] == "uvlhub"
    ensures m.accessRight == "open" && m.license == "CC-BY-4.0"
  {
    ValueNone(meta.publicationType);
    DepositionMetadata(
      meta.title,
      UploadType(meta.publicationType),
      DepositionPublicationType(meta.publicationType),
      meta.description,
      Creators(meta.authors),
      Keywords(meta.tags),
      "open",
      "CC-BY-4.0")
  }

  // ---------------------------------------------------------------------------
  // DOIs

  const DoiPrefix := "10.5281/fakenodo."

  /** The DOI Fakenodo assigns on publishing: the prefix and the id. */
  function Doi(id: int): (r: string)
    ensures StartsWith(r, DoiPrefix)
    ensures r[|DoiPrefix|..] == IntToString(id)
  {
    var r := DoiPrefix + IntToString(id);
    assert r[..|DoiPrefix|] == DoiPrefix;
    r
  }

  /** Distinct records get distinct DOIs, and a DOI reads back to its id. */
  lemma DoiInjective(a: int, b: int)
    ensures Doi(a) == Doi(b) ==> a == b
  {
    if Doi(a) == Doi(b) {
      assert Doi(a)[|DoiPrefix|..] == Doi(b)[|DoiPrefix|..];
      IntToStringInjective(a, b);
    }
  }

  lemma DoiReadsBack(id: nat)
    ensures AllDigits(Doi(id)[|DoiPrefix|..])
    ensures DigitsValue(Doi(id)[|DoiPrefix|..]) == id
  {
    NatToStringRoundTrip(id);
  }

  // ---------------------------------------------------------------------------
  // The Fakenodo dataset table (`publish_dataset`, `get_dataset`, `get_doi`)

  /** A row of the Fakenodo dataset table, with the columns publishing reads
      and writes. */
  datatype FakenodoRecord = FakenodoRecord(id: int, doi: Option<string>, status: string)

  datatype PublishResponse = PublishResponse(id: int, status: string, conceptDoi: string, message: string)

  datatype DatasetResponse = DatasetResponse(id: int, doi: Option<string>, status: string, message: string)

  const NotFound := "Dataset no encontrado"

  class FakenodoTable {
    /** The rows by primary key. */
    var records: map<int, FakenodoRecord>

    ghost predicate Valid()
      reads this
    {
      forall k | k in records :: records[k].id == k
    }

    constructor(rows: map<int, FakenodoRecord>)
      requires forall k | k in rows :: rows[k].id == k
      ensures Valid()
      ensures records == rows
    {
      records := rows;
    }

    /** `get_dataset`: the record's id, DOI and status, or an error for an
        unknown id. */
    function GetDataset(datasetId: int): (r: Result<DatasetResponse, string>)
      reads this
      ensures r.Failure? <==> datasetId !in records
      ensures r.Failure? ==> r.error == NotFound
      ensures r.Success? ==>
        r.value.id == records[datasetId].id &&
        r.value.doi == records[datasetId].doi &&
        r.value.status == records[datasetId].status &&
        r.value.message == "Dataset recuperado correctamente de Fakenodo."
    {
      if datasetId !in records then Failure(NotFound)
      else
        var d := records[datasetId];
        Success(DatasetResponse(d.id, d.doi, d.status, "Dataset recuperado correctamente de Fakenodo."))
    }

    /** `get_doi`: the `doi` entry of `get_dataset`; the error passes through. */
    function GetDoi(datasetId: int): (r: Result<Option<string>, string>)
      reads this
      ensures r.Failure? <==> datasetId !in records
      ensures r.Failure? ==> r.error == NotFound
      ensures r.Success? ==> r.value == records[datasetId].doi
    {
      match GetDataset(datasetId)
      case Failure(e) => Failure(e)
      case Success(d) => Success(d.doi)
    }

    /** `publish_dataset`: an unknown id is an error and changes nothing;
        otherwise the record gets the DOI for its id and the status
        "published", every other record is kept, and the response carries
        the same DOI. */
    method PublishDataset(datasetId: int) returns (r: Result<PublishResponse, string>)
      requires Valid()
      modifies this
      ensures Valid()
      ensures datasetId !in old(records) ==> r == Failure(NotFound) && records == old(records)
      ensures datasetId in old(records) ==>
        records == old(records)[datasetId := old(records)[datasetId].(doi := Some(Doi(datasetId)), status := "published")]
      ensures datasetId in old(records) ==>
        r == Success(PublishResponse(datasetId, "published", Doi(datasetId), "Dataset publicado correctamente en Fakenodo."))
      ensures r.Success? ==> GetDoi(datasetId) == Success(Some(r.value.conceptDoi))
      ensures records.Keys == old(records.Keys)
    {
      if datasetId !in records {
        return Failure(NotFound);
      }
      var dataset := records[datasetId];
      dataset := dataset.(doi := Some(Doi(datasetId)));
      dataset := dataset.(status := "published");
      records := records[datasetId := dataset];
      r := Success(PublishResponse(datasetId, "published", Doi(datasetId), "Dataset publicado correctamente en Fakenodo."));
    }
  }
}
