/** The dataset entities and the values derived from them for display and
    serialisation: file count, total size, average rating, the cleaned
    publication type, the Zenodo link, the tag list and the dictionary the
    explore page receives. */
module DatasetModels {
  import opened Wrappers
  import opened Strings

  /** The publication types, with the member names and stored values of the
      enumeration. */
  datatype PublicationType =
    | NoneType | AnnotationCollection | Book | BookSection | ConferencePaper
    | DataManagementPlan | JournalArticle | Patent | Preprint | ProjectDeliverable
    | ProjectMilestone | Proposal | Report | SoftwareDocumentation
    | TaxonomicTreatment | TechnicalNote | Thesis | WorkingPaper | Other

  /** The enumeration member's name (`publication_type.name`). */
  function Name(t: PublicationType): string
  {
    match t
    case NoneType => "NONE"
    case AnnotationCollection => "ANNOTATION_COLLECTION"
    case Book => "BOOK"
    case BookSection => "BOOK_SECTION"
    case ConferencePaper => "CONFERENCE_PAPER"
    case DataManagementPlan => "DATA_MANAGEMENT_PLAN"
    case JournalArticle => "JOURNAL_ARTICLE"
    case Patent => "PATENT"
    case Preprint => "PREPRINT"
    case ProjectDeliverable => "PROJECT_DELIVERABLE"
    case ProjectMilestone => "PROJECT_MILESTONE"
    case Proposal => "PROPOSAL"
    case Report => "REPORT"
    case SoftwareDocumentation => "SOFTWARE_DOCUMENTATION"
    case TaxonomicTreatment => "TAXONOMIC_TREATMENT"
    case TechnicalNote => "TECHNICAL_NOTE"
    case Thesis => "THESIS"
    case WorkingPaper => "WORKING_PAPER"
    case Other => "OTHER"
  }

  /** The enumeration member's value (`publication_type.value`). */
  function Value(t: PublicationType): string
  {
    match t
    case NoneType => "none"
    case AnnotationCollection => "annotationcollection"
    case Book => "book"
    case BookSection => "section"
    case ConferencePaper => "conferencepaper"
    case DataManagementPlan => "datamanagementplan"
    case JournalArticle => "article"
    case Patent => "patent"
    case Preprint => "preprint"
    case ProjectDeliverable => "deliverable"
    case ProjectMilestone => "milestone"
    case Proposal => "proposal"
    case Report => "report"
    case SoftwareDocumentation => "softwaredocumentation"
    case TaxonomicTreatment => "taxonomictreatment"
    case TechnicalNote => "technicalnote"
    case Thesis => "thesis"
    case WorkingPaper => "workingpaper"
    case Other => "other"
  }

  /** Only the NONE member has the value "none". */
  lemma ValueNone(t: PublicationType)
    ensures Value(t) == "none" <==> t == NoneType
  {
  }

  /** Every character is an upper-case letter or `_`. */
  predicate UpperOrUnderscore(s: string)
  {
    forall c | c in s :: IsUpper(c) || c == '_'
  }

  /** The one-word member names. */
  lemma OneWordNames(t: PublicationType)
    requires t.NoneType? || t.Book? || t.Patent? || t.Preprint? || t.Proposal?
          || t.Report? || t.Thesis? || t.Other?
    ensures UpperOrUnderscore(Name(t))
  {
    match t
    case NoneType => assert UpperOrUnderscore("NONE");
    case Book => assert UpperOrUnderscore("BOOK");
    case Patent => assert UpperOrUnderscore("PATENT");
    case Preprint => assert UpperOrUnderscore("PREPRINT");
    case Proposal => assert UpperOrUnderscore("PROPOSAL");
    case Report => assert UpperOrUnderscore("REPORT");
    case Thesis => assert UpperOrUnderscore("THESIS");
    case Other => assert UpperOrUnderscore("OTHER");
  }

  /** The compound member names, in three groups to keep each proof small. */
  lemma CompoundNamesA(t: PublicationType)
    requires t.AnnotationCollection? || t.BookSection? || t.ConferencePaper? || t.DataManagementPlan?
    ensures UpperOrUnderscore(Name(t))
  {
    match t
    case AnnotationCollection => assert UpperOrUnderscore("ANNOTATION_COLLECTION");
    case BookSection => assert UpperOrUnderscore("BOOK_SECTION");
    case ConferencePaper => assert UpperOrUnderscore("CONFERENCE_PAPER");
    case DataManagementPlan => assert UpperOrUnderscore("DATA_MANAGEMENT_PLAN");
  }

  lemma CompoundNamesB(t: PublicationType)
    requires t.JournalArticle? || t.ProjectDeliverable? || t.ProjectMilestone? || t.SoftwareDocumentation?
    ensures UpperOrUnderscore(Name(t))
  {
    match t
    case JournalArticle => assert UpperOrUnderscore("JOURNAL_ARTICLE");
    case ProjectDeliverable => assert UpperOrUnderscore("PROJECT_DELIVERABLE");
    case ProjectMilestone => assert UpperOrUnderscore("PROJECT_MILESTONE");
    case SoftwareDocumentation => assert UpperOrUnderscore("SOFTWARE_DOCUMENTATION");
  }

  lemma CompoundNamesC(t: PublicationType)
    requires t.TaxonomicTreatment? || t.TechnicalNote? || t.WorkingPaper?
    ensures UpperOrUnderscore(Name(t))
  {
    match t
    case TaxonomicTreatment => assert UpperOrUnderscore("TAXONOMIC_TREATMENT");
    case TechnicalNote => assert UpperOrUnderscore("TECHNICAL_NOTE");
    case WorkingPaper => assert UpperOrUnderscore("WORKING_PAPER");
  }

  lemma NameCharacters(t: PublicationType)
    ensures |Name(t)| > 0 && IsUpper(Name(t)[0])
    ensures UpperOrUnderscore(Name(t))
  {
    if t.NoneType? || t.Book? || t.Patent? || t.Preprint? || t.Proposal?
      || t.Report? || t.Thesis? || t.Other? {
      OneWordNames(t);
    } else if t.AnnotationCollection? || t.BookSection? || t.ConferencePaper? || t.DataManagementPlan? {
      CompoundNamesA(t);
    } else if t.JournalArticle? || t.ProjectDeliverable? || t.ProjectMilestone? || t.SoftwareDocumentation? {
      CompoundNamesB(t);
    } else {
      CompoundNamesC(t);
    }
  }

  /** Member names are upper-case words joined by underscores. */
  lemma NameShape(t: PublicationType)
    ensures |Name(t)| > 0 && IsUpper(Name(t)[0])
    ensures forall i :: 0 <= i < |Name(t)| ==> IsUpper(Name(t)[i]) || Name(t)[i] == '_'
  {
    NameCharacters(t);
    var n := Name(t);
    assert forall i :: 0 <= i < |n| ==> n[i] in n;
  }

  /** `get_cleaned_publication_type`: underscores become spaces, then
      `str.title`. */
  function CleanedPublicationType(t: PublicationType): (r: string)
    ensures |r| == |Name(t)|
  {
    TitleCase(ReplaceChar(Name(t), '_', ' '))
  }

  /** For a string of upper-case letters and underscores that starts with a
      letter, replacing the underscores by spaces and title-casing gives the
      value described position by position. */
  lemma CleanedAt(n: string, i: nat)
    requires i < |n| && IsUpper(n[0])
    requires forall k :: 0 <= k < |n| ==> IsUpper(n[k]) || n[k] == '_'
    ensures |TitleCase(ReplaceChar(n, '_', ' '))| == |n|
    ensures TitleCase(ReplaceChar(n, '_', ' '))[i] ==
      if n[i] == '_' then ' '
      else if i == 0 || n[i - 1] == '_' then n[i]
      else ToLower(n[i])
  {
    var s := ReplaceChar(n, '_', ' ');
    TitleCaseAt(s, i);
  }

  /** Each underscore of the member name is a space; the first letter of each
      word is kept upper-case and the other letters are lowered. */
  lemma CleanedPublicationTypeAt(t: PublicationType, i: nat)
    requires i < |Name(t)|
    ensures |CleanedPublicationType(t)| == |Name(t)|
    ensures var n := Name(t);
      CleanedPublicationType(t)[i] ==
        if n[i] == '_' then ' '
        else if i == 0 || n[i - 1] == '_' then n[i]
        else ToLower(n[i])
  {
    NameShape(t);
    CleanedAt(Name(t), i);
  }

  // ---------------------------------------------------------------------------
  // Entities

  datatype Author = Author(name: string, affiliation: Option<string>, orcid: Option<string>)

  /** A stored file of a feature model; `size` is its length in bytes. */
  datatype File = File(name: string, size: nat)

  datatype FeatureModel = FeatureModel(files: seq<File>)

  datatype Rating = Rating(score: int, userId: int)

  datatype DSMetaData = DSMetaData(
    depositionId: Option<int>,
    title: string,
    description: string,
    publicationType: PublicationType,
    publicationDoi: Option<string>,
    datasetDoi: Option<string>,
    tags: Option<string>,
    authors: seq<Author>)

  datatype DataSet = DataSet(
    id: int,
    userId: int,
    meta: DSMetaData,
    featureModels: seq<FeatureModel>,
    ratings: seq<Rating>)

  /** `DataSet.name()`. */
  function DataSetName(ds: DataSet): string
  {
    ds.meta.title
  }

  // ---------------------------------------------------------------------------
  // File aggregates

  /** `get_files_count`: the number of files, summed per feature model. */
  function FilesCount(fms: seq<FeatureModel>): (r: nat)
    ensures r == 0 <==> forall i :: 0 <= i < |fms| ==> fms[i].files == []
  {
    if fms == [] then 0
    else
      var rest := FilesCount(fms[1..]);
      assert forall i :: 1 <= i < |fms| ==> fms[i] == fms[1..][i - 1];
      |fms[0].files| + rest
  }

  /** Every file of every feature model, in order (the serialised `files`);
      there are as many as `get_files_count` counts. */
  function AllFiles(fms: seq<FeatureModel>): (r: seq<File>)
    ensures |r| == FilesCount(fms)
  {
    if fms == [] then [] else fms[0].files + AllFiles(fms[1..])
  }

  function SumSizes(files: seq<File>): nat
  {
    if files == [] then 0 else files[0].size + SumSizes(files[1..])
  }

  /** `get_file_total_size`: the sizes of all files of all feature models;
      no single file is larger than the total. */
  function FileTotalSize(fms: seq<FeatureModel>): (r: nat)
    ensures forall i :: 0 <= i < |AllFiles(fms)| ==> AllFiles(fms)[i].size <= r
  {
    SumSizesBounds(AllFiles(fms));
    SumSizes(AllFiles(fms))
  }

  lemma {:induction false} SumSizesAppend(a: seq<File>, b: seq<File>)
    ensures SumSizes(a + b) == SumSizes(a) + SumSizes(b)
  {
    if a == [] {
      assert a + b == b;
    } else {
      assert (a + b)[0] == a[0];
      assert (a + b)[1..] == a[1..] + b;
      assert SumSizes(a + b) == a[0].size + SumSizes(a[1..] + b);
      SumSizesAppend(a[1..], b);
    }
  }

  /** The total is the sum, over feature models, of each model's total; with
      no feature models it is 0. */
  lemma {:induction false} FileTotalSizePerModel(fms: seq<FeatureModel>)
    ensures fms == [] ==> FileTotalSize(fms) == 0
    ensures fms != [] ==> FileTotalSize(fms) == SumSizes(fms[0].files) + FileTotalSize(fms[1..])
  {
    if fms != [] {
      SumSizesAppend(fms[0].files, AllFiles(fms[1..]));
    }
  }

  /** No file is larger than the total, and the total is 0 exactly when
      every file is empty. */
  lemma {:induction false} SumSizesBounds(files: seq<File>)
    ensures forall i :: 0 <= i < |files| ==> files[i].size <= SumSizes(files)
    ensures SumSizes(files) == 0 <==> forall i :: 0 <= i < |files| ==> files[i].size == 0
  {
    if files != [] {
      SumSizesBounds(files[1..]);
      assert forall i :: 1 <= i < |files| ==> files[i] == files[1..][i - 1];
    }
  }

  // ---------------------------------------------------------------------------
  // Ratings

  function SumScores(ratings: seq<Rating>): int
  {
    if ratings == [] then 0 else ratings[0].score + SumScores(ratings[1..])
  }

  function MinScore(ratings: seq<Rating>): int
    requires ratings != []
  {
    if |ratings| == 1 then ratings[0].score
    else var m := MinScore(ratings[1..]); if ratings[0].score < m then ratings[0].score else m
  }

  function MaxScore(ratings: seq<Rating>): int
    requires ratings != []
  {
    if |ratings| == 1 then ratings[0].score
    else var m := MaxScore(ratings[1..]); if ratings[0].score > m then ratings[0].score else m
  }

  lemma MulMono(k: nat, a: int, b: int)
    requires a <= b
    ensures k * a <= k * b
  {
  }

  /** The total is at least the count times the lowest score. */
  lemma {:induction false} SumScoresAtLeast(ratings: seq<Rating>)
    requires ratings != []
    ensures |ratings| * MinScore(ratings) <= SumScores(ratings)
  {
    if |ratings| > 1 {
      var rest := ratings[1..];
      var n := |rest|;
      var lo, loRest := MinScore(ratings), MinScore(rest);
      assert lo <= ratings[0].score && lo <= loRest;
      SumScoresAtLeast(rest);
      MulMono(n, lo, loRest);
      assert (n + 1) * lo == lo + n * lo;
    }
  }

  /** The total is at most the count times the highest score. */
  lemma {:induction false} SumScoresAtMost(ratings: seq<Rating>)
    requires ratings != []
    ensures SumScores(ratings) <= |ratings| * MaxScore(ratings)
  {
    if |ratings| > 1 {
      var rest := ratings[1..];
      var n := |rest|;
      var hi, hiRest := MaxScore(ratings), MaxScore(rest);
      assert ratings[0].score <= hi && hiRest <= hi;
      SumScoresAtMost(rest);
      MulMono(n, hiRest, hi);
      assert (n + 1) * hi == hi + n * hi;
    }
  }

  /** Dividing bounds on a total by a positive count bounds the mean. */
  lemma MeanBetween(lo: real, total: real, hi: real, n: real)
    requires n > 0.0 && lo * n <= total <= hi * n
    ensures (total / n) * n == total
    ensures lo <= total / n <= hi
  {
  }

  /** `get_average_rating`, in exact arithmetic: no value without ratings,
      otherwise the mean score, which lies between the lowest and the
      highest score. */
  function AverageRating(ratings: seq<Rating>): (r: Option<real>)
    ensures r.None? <==> ratings == []
    ensures r.Some? ==> r.value * (|ratings| as real) == SumScores(ratings) as real
    ensures r.Some? ==> MinScore(ratings) as real <= r.value <= MaxScore(ratings) as real
  {
    if ratings == [] then None
    else
      var n := |ratings| as real;
      var avg := (SumScores(ratings) as real) / n;
      SumScoresAtLeast(ratings);
      SumScoresAtMost(ratings);
      MeanBetween(MinScore(ratings) as real, SumScores(ratings) as real, MaxScore(ratings) as real, n);
      Some(avg)
  }

  // ---------------------------------------------------------------------------
  // Links, tags and the serialised dictionary

  const ZenodoRecordPrefix := "https://zenodo.org/record/"

  /** `str()` of a nullable integer column: `None` renders as "None". */
  function OptionalIntToString(o: Option<int>): (r: string)
    ensures r == "None" <==> o.None?
  {
    match o
    case None => "None"
    case Some(i) => IntToString(i)
  }

  lemma OptionalIntReadsBack(o: Option<int>)
    ensures o.Some? && o.value >= 0 ==>
      AllDigits(OptionalIntToString(o)) && DigitsValue(OptionalIntToString(o)) == o.value
  {
    if o.Some? && o.value >= 0 {
      NatToStringRoundTrip(o.value);
    }
  }

  /** `get_zenodo_url`: a record link when the dataset has a dataset DOI. */
  function ZenodoUrl(ds: DataSet): (r: Option<string>)
    ensures r.None? <==> !Truthy(ds.meta.datasetDoi)
    ensures r.Some? ==> StartsWith(r.value, ZenodoRecordPrefix)
    ensures r.Some? && ds.meta.depositionId.Some? && ds.meta.depositionId.value >= 0 ==>
      AllDigits(r.value[|ZenodoRecordPrefix|..]) &&
      DigitsValue(r.value[|ZenodoRecordPrefix|..]) == ds.meta.depositionId.value
  {
    if Truthy(ds.meta.datasetDoi) then
      var url := ZenodoRecordPrefix + OptionalIntToString(ds.meta.depositionId);
      assert url[..|ZenodoRecordPrefix|] == ZenodoRecordPrefix;
      assert url[|ZenodoRecordPrefix|..] == OptionalIntToString(ds.meta.depositionId);
      OptionalIntReadsBack(ds.meta.depositionId);
      Some(url)
    else None
  }

  /** The `tags` entry of `to_dict`: the tag column split on ",", or no tags
      when the column is empty or null. */
  function TagList(tags: Option<string>): (r: seq<string>)
    ensures r == [] <==> !Truthy(tags)
    ensures Truthy(tags) ==> Join(r, ",") == tags.value
    ensures forall i :: 0 <= i < |r| ==> !Contains(r[i], ",")
  {
    if Truthy(tags) then Split(tags.value, ",") else []
  }

  /** Storing tags joined by "," and reading them back gives the same tags. */
  lemma TagListJoin(tags: seq<string>)
    requires |tags| >= 1 && Join(tags, ",") != ""
    requires forall i, k :: 0 <= i < |tags| && 0 <= k < |tags[i]| ==> tags[i][k] != ','
    ensures TagList(Some(Join(tags, ","))) == tags
  {
    SplitJoin(tags, ',');
  }

  /** The dictionary `to_dict` builds, without the entries computed by
      services outside this model (creation time, DOI link, download link,
      human-readable size). */
  datatype DatasetDict = DatasetDict(
    title: string,
    id: int,
    description: string,
    authors: seq<Author>,
    publicationType: string,
    publicationDoi: Option<string>,
    datasetDoi: Option<string>,
    tags: seq<string>,
    zenodo: Option<string>,
    files: seq<File>,
    filesCount: nat,
    totalSizeInBytes: nat,
    averageRating: Option<real>)

  /** `to_dict`: the count and the total size agree with the serialised file
      list, and the rating is absent exactly when nobody rated. */
  function ToDict(ds: DataSet): (d: DatasetDict)
    ensures d.filesCount == |d.files|
    ensures d.totalSizeInBytes == SumSizes(d.files)
    ensures d.tags == [] <==> !Truthy(ds.meta.tags)
    ensures d.zenodo.Some? <==> Truthy(ds.meta.datasetDoi)
    ensures d.averageRating.None? <==> ds.ratings == []
    ensures d.authors == ds.meta.authors
    ensures d.files == AllFiles(ds.featureModels)
    ensures d.tags == TagList(ds.meta.tags)
    ensures d.zenodo == ZenodoUrl(ds)
    ensures d.averageRating == AverageRating(ds.ratings)
    ensures d.publicationType == CleanedPublicationType(ds.meta.publicationType)
    ensures d.title == ds.meta.title && d.id == ds.id
  {
    DatasetDict(
      ds.meta.title,
      ds.id,
      ds.meta.description,
      ds.meta.authors,
      CleanedPublicationType(ds.meta.publicationType),
      ds.meta.publicationDoi,
      ds.meta.datasetDoi,
      TagList(ds.meta.tags),
      ZenodoUrl(ds),
      AllFiles(ds.featureModels),
      FilesCount(ds.featureModels),
      FileTotalSize(ds.featureModels),
      AverageRating(ds.ratings))
  }
}
