/** The client-side filters of the explore page: the size, file-count, author
    and title checks applied to each dataset the server returns, the result
    count label, and the dropdowns rebuilt from the returned datasets. */
module Explore {
  import opened Strings

  /** The fields of a serialised dataset that the page filters on. */
  datatype CardAuthor = CardAuthor(name: string)

  datatype DatasetCard = DatasetCard(
    totalSizeInBytes: int,
    authors: seq<CardAuthor>,
    title: string,
    filesCount: int)

  /** The values of the filter controls sent with a query. */
  datatype SearchCriteria = SearchCriteria(size: string, author: string, title: string, files: string)

  /** A dataset title as the title check receives it: a string, or an array. */
  datatype TitleValue = TitleText(text: string) | TitleList(items: seq<string>)

  // ---------------------------------------------------------------------------
  // Size buckets

  const SizeKeys: seq<string> :=
    ["lessThan1KB", "between1KBand2KB", "between2KBand3KB", "between3KBand4KB",
     "between4KBand5KB", "moreThan5KB"]

  /** The object literal `sizeMap`, one entry per bucket. */
  function SizeMap(totalSize: int): map<string, bool>
  {
    map[
      "lessThan1KB" := totalSize < 1024,
      "between1KBand2KB" := totalSize >= 1024 && totalSize < 2048,
      "between2KBand3KB" := totalSize >= 2048 && totalSize < 3072,
      "between3KBand4KB" := totalSize >= 3072 && totalSize < 4096,
      "between4KBand5KB" := totalSize >= 4096 && totalSize < 5120,
      "moreThan5KB" := totalSize > 5120
    ]
  }

  /** `matchSize`: a known bucket key selects its bucket, any other key
      accepts every size. */
  function MatchSize(totalSize: int, size: string): (r: bool)
    ensures size == "lessThan1KB" ==> (r <==> totalSize < 1024)
    ensures forall k :: 1 <= k <= 4 && size == SizeKeys[k] ==> (r <==> 1024 * k <= totalSize < 1024 * (k + 1))
    ensures size == "moreThan5KB" ==> (r <==> totalSize > 5120)
    ensures size !in SizeKeys ==> r
  {
    var sizeMap := SizeMap(totalSize);
    if size in sizeMap then sizeMap[size] else true
  }

  /** Two different bucket keys never both accept one size. */
  lemma SizeBucketsDisjoint(totalSize: int, i: nat, j: nat)
    requires i < j < |SizeKeys|
    ensures !(MatchSize(totalSize, SizeKeys[i]) && MatchSize(totalSize, SizeKeys[j]))
  {
  }

  /** Every size except exactly 5120 falls into some bucket; 5120 falls into
      none, because the last bucket is strict. */
  lemma {:induction false} SizeCoverage(totalSize: int)
    ensures totalSize != 5120 <==> exists i :: 0 <= i < |SizeKeys| && MatchSize(totalSize, SizeKeys[i])
  {
    if totalSize != 5120 {
      var i := if totalSize < 1024 then 0 else if totalSize < 2048 then 1 else if totalSize < 3072 then 2
               else if totalSize < 4096 then 3 else if totalSize < 5120 then 4 else 5;
      assert MatchSize(totalSize, SizeKeys[i]);
    } else {
      forall i | 0 <= i < |SizeKeys| ensures !MatchSize(totalSize, SizeKeys[i]) {
      }
    }
  }

  /** The bucket rule as its labels say: "more than 5KB" starting at 5120. */
  function MatchSizeIntended(totalSize: int, size: string): (r: bool)
    ensures size == "moreThan5KB" ==> (r <==> totalSize >= 5120)
    ensures size == "lessThan1KB" ==> (r <==> totalSize < 1024)
    ensures forall k :: 1 <= k <= 4 && size == SizeKeys[k] ==> (r <==> 1024 * k <= totalSize < 1024 * (k + 1))
    ensures size !in SizeKeys ==> r
  {
    if size == "moreThan5KB" then totalSize >= 5120 else MatchSize(totalSize, size)
  }

  /** With the corrected rule every size falls into exactly one bucket. */
  lemma {:induction false} SizeIntendedPartition(totalSize: int)
    ensures exists i :: 0 <= i < |SizeKeys| && MatchSizeIntended(totalSize, SizeKeys[i])
    ensures forall i, j :: 0 <= i < j < |SizeKeys| ==>
      !(MatchSizeIntended(totalSize, SizeKeys[i]) && MatchSizeIntended(totalSize, SizeKeys[j]))
  {
    if totalSize == 5120 {
      assert MatchSizeIntended(totalSize, SizeKeys[5]);
    } else {
      SizeCoverage(totalSize);
    }
  }

  // ---------------------------------------------------------------------------
  // File-count buckets

  const FilesKeys: seq<string> :=
    ["any", "1file", "2files", "3files", "4files", "5files", "6files", "7files",
     "8files", "9files", "moreThan10files"]

  /** The object literal `filesMap`. */
  function FilesMap(filesCount: int): map<string, bool>
  {
    map[
      "any" := true,
      "1file" := filesCount == 1,
      "2files" := filesCount == 2,
      "3files" := filesCount == 3,
      "4files" := filesCount == 4,
      "5files" := filesCount == 5,
      "6files" := filesCount == 6,
      "7files" := filesCount == 7,
      "8files" := filesCount == 8,
      "9files" := filesCount == 9,
      "moreThan10files" := filesCount > 10
    ]
  }

  /** `matchFiles`: an unknown key is replaced by "any" before the lookup. */
  function MatchFiles(filesCount: int, files: string): (r: bool)
    ensures files == "moreThan10files" ==> (r <==> filesCount > 10)
    ensures files !in FilesKeys ==> r
    ensures files == "any" ==> r
  {
    var filesMap := FilesMap(filesCount);
    var key := if files in filesMap then files else "any";
    filesMap[key]
  }

  /** For n in 1..9 the n-th key ("1file", "2files", ..., "9files") accepts
      exactly the count n. */
  lemma MatchFilesExact(filesCount: int, n: nat)
    requires 1 <= n <= 9
    ensures MatchFiles(filesCount, FilesKeys[n]) <==> filesCount == n
  {
  }

  /** Exactly ten files match no count key but "any". */
  lemma TenFilesOnlyAny(files: string)
    requires files in FilesKeys
    ensures MatchFiles(10, files) <==> files == "any"
  {
  }

  // ---------------------------------------------------------------------------
  // Title and author checks

  /** `Array.prototype.includes` on strings: a scan from the front. */
  function Includes(items: seq<string>, x: string): (r: bool)
    ensures r <==> x in items
  {
    if items == [] then false
    else if items[0] == x then true
    else Includes(items[1..], x)
  }

  /** `matchTitle`: membership for an array title, equality for a string. */
  function MatchTitle(datasetTitle: TitleValue, title: string): (r: bool)
    ensures datasetTitle.TitleList? ==> (r <==> title in datasetTitle.items)
    ensures datasetTitle.TitleText? ==> (r <==> title == datasetTitle.text)
  {
    match datasetTitle
    case TitleList(items) => Includes(items, title)
    case TitleText(text) => text == title
  }

  /** `authors.some(({ name }) => name === author)`. */
  function SomeAuthorNamed(authors: seq<CardAuthor>, author: string): (r: bool)
    ensures r <==> exists i :: 0 <= i < |authors| && authors[i].name == author
  {
    if authors == [] then false
    else authors[0].name == author || SomeAuthorNamed(authors[1..], author)
  }

  /** `filterDataset`: the conjunction of the four checks. */
  function FilterDataset(dataset: DatasetCard, criteria: SearchCriteria): bool
  {
    && MatchSize(dataset.totalSizeInBytes, criteria.size)
    && (criteria.author == "any" || SomeAuthorNamed(dataset.authors, criteria.author))
    && (criteria.title == "any" || MatchTitle(TitleText(dataset.title), criteria.title))
    && MatchFiles(dataset.filesCount, criteria.files)
  }

  /** What the conjunction means for each criterion. */
  lemma FilterDatasetMeaning(dataset: DatasetCard, criteria: SearchCriteria)
    ensures FilterDataset(dataset, criteria) <==>
      && MatchSize(dataset.totalSizeInBytes, criteria.size)
      && (criteria.author == "any" || exists i :: 0 <= i < |dataset.authors| && dataset.authors[i].name == criteria.author)
      && (criteria.title == "any" || dataset.title == criteria.title)
      && MatchFiles(dataset.filesCount, criteria.files)
  {
  }

  /** The criteria "Clear filters" sets. */
  const ClearedCriteria := SearchCriteria("any", "any", "any", "any")

  /** Cleared filters keep every dataset: "any" is no size key, so the size
      check passes too. */
  lemma ClearedFiltersAcceptAll(dataset: DatasetCard)
    ensures FilterDataset(dataset, ClearedCriteria)
  {
  }

  // ---------------------------------------------------------------------------
  // Results

  /** `data.filter(dataset => filterDataset(dataset, criteria))`. */
  function FilterResults(data: seq<DatasetCard>, criteria: SearchCriteria): (r: seq<DatasetCard>)
    ensures |r| <= |data|
  {
    if data == [] then []
    else
      var rest := FilterResults(data[1..], criteria);
      if FilterDataset(data[0], criteria) then [data[0]] + rest else rest
  }

  /** The filtered results are exactly the returned datasets that pass the
      filters. */
  lemma {:induction false} FilterResultsMembers(data: seq<DatasetCard>, criteria: SearchCriteria)
    ensures forall d :: d in FilterResults(data, criteria) <==> d in data && FilterDataset(d, criteria)
  {
    if data != [] {
      FilterResultsMembers(data[1..], criteria);
      assert forall d :: d in data <==> d == data[0] || d in data[1..];
    }
  }

  /** A passing dataset is kept as often as it occurs among the returned
      ones, and a failing one not at all; so the label's count is the
      number of returned datasets that pass. */
  lemma {:induction false} FilterResultsMultiplicity(data: seq<DatasetCard>, criteria: SearchCriteria)
    ensures forall d ::
      multiset(FilterResults(data, criteria))[d] == if FilterDataset(d, criteria) then multiset(data)[d] else 0
  {
    if data != [] {
      FilterResultsMultiplicity(data[1..], criteria);
      assert data == [data[0]] + data[1..];
      assert multiset(data) == multiset{data[0]} + multiset(data[1..]);
    }
  }

  /** Filtering distributes over concatenation: the kept datasets stay in
      the order they were returned in. */
  lemma {:induction false} FilterResultsAppend(a: seq<DatasetCard>, b: seq<DatasetCard>, criteria: SearchCriteria)
    ensures FilterResults(a + b, criteria) == FilterResults(a, criteria) + FilterResults(b, criteria)
  {
    if a == [] {
      assert a + b == b;
    } else {
      assert (a + b)[0] == a[0];
      assert (a + b)[1..] == a[1..] + b;
      FilterResultsAppend(a[1..], b, criteria);
    }
  }

  /** The text of the results-number element. */
  function ResultLabel(resultCount: nat): string
  {
    NatToString(resultCount) + " " + (if resultCount == 1 then "dataset" else "datasets") + " found"
  }

  /** The label starts with the count, which reads back from it, followed
      by a space. */
  lemma ResultLabelCount(resultCount: nat)
    ensures var text := ResultLabel(resultCount); var digits := NatToString(resultCount);
      && StartsWith(text, digits)
      && AllDigits(text[..|digits|])
      && DigitsValue(text[..|digits|]) == resultCount
      && text[|digits|] == ' '
  {
    var digits := NatToString(resultCount);
    var text := digits + " " + (if resultCount == 1 then "dataset" else "datasets") + " found";
    assert text[..|digits|] == digits;
    NatToStringRoundTrip(resultCount);
  }

  /** The noun is singular exactly for one result. */
  lemma ResultLabelNoun(resultCount: nat)
    ensures EndsWith(ResultLabel(resultCount), " dataset found") <==> resultCount == 1
    ensures resultCount != 1 ==> EndsWith(ResultLabel(resultCount), " datasets found")
  {
    var digits := NatToString(resultCount);
    if resultCount == 1 {
      assert ResultLabel(resultCount) == digits + " dataset found";
    } else {
      var text := digits + " datasets found";
      assert ResultLabel(resultCount) == text;
      assert text[|text| - 15..] == " datasets found";
      assert text[|text| - 7] == 's';
    }
  }

  /** `populateAuthorsFilter`: every author name, dataset by dataset. */
  function AuthorNames(data: seq<DatasetCard>): seq<string>
  {
    if data == [] then [] else NamesOf(data[0].authors) + AuthorNames(data[1..])
  }

  /** A name is offered exactly when some returned dataset has an author of
      that name. */
  lemma {:induction false} AuthorNamesMembers(data: seq<DatasetCard>, x: string)
    ensures x in AuthorNames(data) <==>
      exists i, j :: 0 <= i < |data| && 0 <= j < |data[i].authors| && data[i].authors[j].name == x
  {
    if data != [] {
      AuthorNamesMembers(data[1..], x);
      if x in AuthorNames(data[1..]) {
        var i, j :| 0 <= i < |data[1..]| && 0 <= j < |data[1..][i].authors| && data[1..][i].authors[j].name == x;
        assert data[i + 1].authors[j].name == x;
      }
      if exists i, j :: 0 <= i < |data| && 0 <= j < |data[i].authors| && data[i].authors[j].name == x {
        var i, j :| 0 <= i < |data| && 0 <= j < |data[i].authors| && data[i].authors[j].name == x;
        if i > 0 {
          assert data[1..][i - 1].authors[j].name == x;
        } else {
          assert NamesOf(data[0].authors)[j] == x;
        }
      }
    }
  }

  function NamesOf(authors: seq<CardAuthor>): (names: seq<string>)
    ensures |names| == |authors|
    ensures forall j :: 0 <= j < |authors| ==> names[j] == authors[j].name
  {
    if authors == [] then [] else [authors[0].name] + NamesOf(authors[1..])
  }

  /** `populateTitleFilter`: each dataset's title, in order. */
  function Titles(data: seq<DatasetCard>): (titles: seq<string>)
    ensures |titles| == |data|
    ensures forall i :: 0 <= i < |data| ==> titles[i] == data[i].title
  {
    if data == [] then [] else [data[0].title] + Titles(data[1..])
  }

  // ---------------------------------------------------------------------------
  // De-duplication in first-occurrence order, as `Array.from(new Set(items))`

  predicate NoDuplicates(s: seq<string>)
  {
    forall i, j :: 0 <= i < j < |s| ==> s[i] != s[j]
  }

  /** The index of the first occurrence of `x` in `items`. */
  function FirstIndex(items: seq<string>, x: string): (k: nat)
    requires x in items
    ensures k < |items| && items[k] == x
    ensures forall j :: 0 <= j < k ==> items[j] != x
  {
    if items[0] == x then 0 else 1 + FirstIndex(items[1..], x)
  }

  lemma FirstIndexPrefix(items: seq<string>, n: nat, x: string)
    requires n <= |items| && x in items[..n]
    ensures x in items && FirstIndex(items, x) == FirstIndex(items[..n], x)
  {
    var k := FirstIndex(items[..n], x);
    assert items[k] == x;
    assert forall j :: 0 <= j < k ==> items[j] == items[..n][j];
  }

  /** A JavaScript `Set` built from `items`: each value is inserted in turn
      and kept only the first time. */
  function Unique(items: seq<string>): seq<string>
  {
    if items == [] then []
    else
      var rest := Unique(items[..|items| - 1]);
      var last := items[|items| - 1];
      if last in rest then rest else rest + [last]
  }

  /** The set holds exactly the values of `items`. */
  lemma {:induction false} UniqueMembers(items: seq<string>)
    ensures forall x :: x in Unique(items) <==> x in items
  {
    if items != [] {
      var front := items[..|items| - 1];
      assert items == front + [items[|items| - 1]];
      UniqueMembers(front);
    }
  }

  /** Each value appears once. */
  lemma {:induction false} UniqueNoDuplicates(items: seq<string>)
    ensures NoDuplicates(Unique(items))
  {
    if items != [] {
      UniqueNoDuplicates(items[..|items| - 1]);
    }
  }

  /** Values come in the order of their first occurrence in `items`. */
  lemma {:induction false} UniqueFirstOccurrenceOrder(items: seq<string>)
    ensures forall x :: x in Unique(items) ==> x in items
    ensures forall i, j :: 0 <= i < j < |Unique(items)| ==>
      FirstIndex(items, Unique(items)[i]) < FirstIndex(items, Unique(items)[j])
  {
    UniqueMembers(items);
    if items != [] {
      var n := |items| - 1;
      var front, last := items[..n], items[n];
      var rest, u := Unique(front), Unique(items);
      UniqueFirstOccurrenceOrder(front);
      UniqueMembers(front);
      forall i, j | 0 <= i < j < |u| ensures FirstIndex(items, u[i]) < FirstIndex(items, u[j]) {
        assert u[i] == rest[i];
        FirstIndexPrefix(items, n, rest[i]);
        if j < |rest| {
          assert u[j] == rest[j];
          FirstIndexPrefix(items, n, rest[j]);
        } else {
          assert u[j] == last && last !in front;
          assert forall k :: 0 <= k < n ==> items[k] == front[k];
        }
      }
    }
  }

  // ---------------------------------------------------------------------------
  // The page

  datatype SelectOption = SelectOption(value: string, text: string)

  const AnyOption := SelectOption("any", "Any")

  /** The option elements `populateDropdown` appends, one per item. */
  function OptionsFor(items: seq<string>): (opts: seq<SelectOption>)
    ensures |opts| == |items|
    ensures forall i :: 0 <= i < |items| ==> opts[i] == SelectOption(items[i], items[i])
  {
    if items == [] then [] else [SelectOption(items[0], items[0])] + OptionsFor(items[1..])
  }

  /** A `<select>` element: its options and its current value. */
  class SelectElement {
    var options: seq<SelectOption>
    var value: string

    constructor (value: string)
      ensures this.options == [AnyOption] && this.value == value
    {
      this.options := [AnyOption];
      this.value := value;
    }

    /** The `forEach` of `populateDropdown`: one option per item, appended in
        order; the selected value is untouched. */
    method AppendOptions(items: seq<string>)
      modifies this
      ensures options == old(options) + OptionsFor(items)
      ensures value == old(value)
    {
      var i := 0;
      while i < |items|
        invariant 0 <= i <= |items|
        invariant options == old(options) + OptionsFor(items[..i])
        invariant value == old(value)
      {
        var item := items[i];
        assert items[..i + 1] == items[..i] + [item];
        OptionsForAppend(items[..i], item);
        options := options + [SelectOption(item, item)];
        i := i + 1;
      }
      assert items[..i] == items;
    }

    /** `populateDropdown`. Replacing the inner HTML leaves the single "Any"
        option selected; the previous selection is restored only when it is
        among the new items. */
    method PopulateDropdown(items: seq<string>)
      modifies this
      ensures options == [AnyOption] + OptionsFor(Unique(items))
      ensures value == if old(value) in items then old(value) else "any"
    {
      var uniqueItems := Unique(items);
      var currentSelection := value;

      options := [AnyOption];
      value := "any";
      AppendOptions(uniqueItems);

      UniqueMembers(items);
      if Includes(uniqueItems, currentSelection) {
        value := currentSelection;
      }
    }
  }

  lemma OptionsForAppend(items: seq<string>, x: string)
    ensures OptionsFor(items + [x]) == OptionsFor(items) + [SelectOption(x, x)]
  {
  }

  /** The elements of the explore page that a query's results update. */
  class ExplorePage {
    var resultsNumber: string
    var resultsNotFoundVisible: bool
    var results: seq<DatasetCard>
    const authorsSelect: SelectElement
    const titleSelect: SelectElement

    ghost predicate Valid()
      reads this
    {
      authorsSelect != titleSelect
    }

    constructor ()
      ensures Valid() && fresh(authorsSelect) && fresh(titleSelect)
      ensures results == [] && !resultsNotFoundVisible
      ensures authorsSelect.value == "any" && titleSelect.value == "any"
    {
      resultsNumber := "";
      resultsNotFoundVisible := false;
      results := [];
      authorsSelect := new SelectElement("any");
      titleSelect := new SelectElement("any");
    }

    /** The current filter values, as `sendQuery` reads them. */
    function Criteria(size: string, files: string): SearchCriteria
      reads authorsSelect, titleSelect
    {
      SearchCriteria(size, authorsSelect.value, titleSelect.value, files)
    }

    /** `handleResults`: show the count, toggle the "not found" notice,
        rebuild both dropdowns from all returned datasets and append a card
        for each dataset that passes the filters. */
    method HandleResults(data: seq<DatasetCard>, criteria: SearchCriteria)
      requires Valid()
      modifies this, authorsSelect, titleSelect
      ensures Valid()
      ensures var filtered := FilterResults(data, criteria);
        && resultsNumber == ResultLabel(|filtered|)
        && resultsNotFoundVisible == (|filtered| == 0)
        && results == old(results) + filtered
      ensures authorsSelect.options == [AnyOption] + OptionsFor(Unique(AuthorNames(data)))
      ensures authorsSelect.value == if old(authorsSelect.value) in AuthorNames(data) then old(authorsSelect.value) else "any"
      ensures titleSelect.options == [AnyOption] + OptionsFor(Unique(Titles(data)))
      ensures titleSelect.value == if old(titleSelect.value) in Titles(data) then old(titleSelect.value) else "any"
    {
      var filteredData := FilterResults(data, criteria);
      var resultCount := |filteredData|;

      resultsNumber := ResultLabel(resultCount);
      resultsNotFoundVisible := resultCount == 0;

      authorsSelect.PopulateDropdown(AuthorNames(data));
      titleSelect.PopulateDropdown(Titles(data));

      AppendCards(filteredData);
    }

    /** The `forEach` of `handleResults`: a card for each filtered dataset,
        appended in order. */
    method AppendCards(cards: seq<DatasetCard>)
      modifies this
      ensures results == old(results) + cards
      ensures resultsNumber == old(resultsNumber) && resultsNotFoundVisible == old(resultsNotFoundVisible)
    {
      var i := 0;
      while i < |cards|
        invariant 0 <= i <= |cards|
        invariant results == old(results) + cards[..i]
        invariant resultsNumber == old(resultsNumber) && resultsNotFoundVisible == old(resultsNotFoundVisible)
      {
        assert cards[..i + 1] == cards[..i] + [cards[i]];
        results := results + [cards[i]];
        i := i + 1;
      }
      assert cards[..i] == cards;
    }

    /** `sendQuery` with the server's reply passed in: clear the results,
        hide the notice, then handle the reply. */
    method SendQuery(size: string, files: string, data: seq<DatasetCard>)
      requires Valid()
      modifies this, authorsSelect, titleSelect
      ensures Valid()
      ensures var filtered := FilterResults(data, old(Criteria(size, files)));
        && results == filtered
        && resultsNumber == ResultLabel(|filtered|)
        && resultsNotFoundVisible == (|filtered| == 0)
      ensures authorsSelect.options == [AnyOption] + OptionsFor(Unique(AuthorNames(data)))
      ensures authorsSelect.value == if old(authorsSelect.value) in AuthorNames(data) then old(authorsSelect.value) else "any"
      ensures titleSelect.options == [AnyOption] + OptionsFor(Unique(Titles(data)))
      ensures titleSelect.value == if old(titleSelect.value) in Titles(data) then old(titleSelect.value) else "any"
    {
      results := [];
      resultsNotFoundVisible := false;
      var criteria := Criteria(size, files);
      assert criteria == old(Criteria(size, files));
      HandleResults(data, criteria);
    }
  }
}
