# uvlhub explore filters, dataset views, Fakenodo and download notifications in Dafny

This project models five small pieces of uvlhub, a repository of UVL feature-model datasets:

- **Explore page** (`Explore`). The explore page filters the datasets the server returns by size bucket, file-count bucket, author and title. It shows a label with the count of results and rebuilds the author and title dropdowns. The dropdown options are the distinct values in first-occurrence order after a leading "Any"; the previous selection is kept only when it is still offered. The page is a class with two `SelectElement` objects, updated in place.
- **Dataset models** (`DatasetModels`). The values a dataset derives for display and serialisation: its file count, total file size, average rating, cleaned publication type, Zenodo link and tag list, and the dictionary `to_dict` builds from them.
- **Fakenodo service** (`FakenodoServices`).
  - The deposition metadata built from a dataset's metadata: the upload and publication type, the creators, the keywords, access right and licence.
  - Publishing and looking up records of the Fakenodo dataset table. The table is a class whose `publish` updates a record in place.
- **Download notifications** (`BotServices`). The service URLs of the notified bots. Suppression when users download their own content. The title and body of the message.
- **In-memory Fakenodo store** (`FakenodoRoutes`). The upload, download, list and delete routes over a dictionary keyed by id, plus an id counter. It is a class with a `map`, the dictionary's key order and the counter. Its invariant holds three facts:
  - every key lies below the counter;
  - every record carries its key;
  - keys are kept in ascending order, so an id is never handed out twice.

Two further modules hold shared support:

- `Wrappers`: `Option`, `Result`, and Python truthiness of a nullable string.
- `Strings`: the runtime string operations the code relies on, each with its properties proved. They are decimal rendering (`str(n)`, `${n}`), `str.split`, `sep.join`, `str.replace` of one character and ASCII `str.title`.

Where the code and its documentation disagree, the model follows the code:

- `matchSize` leaves a size of exactly 5120 bytes in no bucket (see Findings).
- `on_download_dataset` and `on_download_file` overwrite the message body for anonymous downloads (see Findings).

Three parts of the code cannot run as written; the model describes what they evidently mean, and "## Left out" says so on one line each (the import of `Dataset`, the `DSMetaData` methods, the merge-conflict markers in the routes).

What the methods return:

- Routes return a `Reply`: the response body plus the HTTP status.
- Service errors (raised exceptions in the code) are `Failure` values.
- A notification method returns the message it would hand to the messaging library, or `None` when it sends nothing.

## Model

| member | source | states |
|---|---|---|
| Explore.MatchSize | app/modules/explore/assets/scripts.js:101-118 | `lessThan1KB` holds exactly below 1024. The k-th "between" key (k = 1..4) holds exactly on [1024k, 1024(k+1)). `moreThan5KB` holds exactly above 5120. A key that is not a bucket accepts every size. |
| Explore.SizeBucketsDisjoint | app/modules/explore/assets/scripts.js:102-109 | Two different bucket keys never both accept one size. |
| Explore.SizeCoverage | app/modules/explore/assets/scripts.js:102-109 | Some bucket accepts the size if and only if the size is not 5120. 5120 falls into none, because `moreThan5KB` is strict. |
| Explore.MatchSizeIntended | app/modules/explore/assets/scripts.js:108 | The corrected rule: `moreThan5KB` holds from 5120 on; the other buckets are unchanged. |
| Explore.SizeIntendedPartition | app/modules/explore/assets/scripts.js:102-109 | Under the corrected rule, every size falls into some bucket and no size falls into two. |
| Explore.MatchFiles | app/modules/explore/assets/scripts.js:71-98 | `moreThan10files` holds exactly above 10. "any" and every unrecognised value accept every count, because an unknown key is replaced by "any". |
| Explore.MatchFilesExact | app/modules/explore/assets/scripts.js:75-87 | For n in 1..9, the key "1file" / "<n>files" accepts exactly the count n. |
| Explore.TenFilesOnlyAny | app/modules/explore/assets/scripts.js:75-87 | A count of exactly 10 is accepted by "any" and by no other key. |
| Explore.Includes | app/modules/explore/assets/scripts.js:68 | `Array.prototype.includes` holds exactly when the value is among the items. |
| Explore.MatchTitle | app/modules/explore/assets/scripts.js:67-69 | An array title matches when it holds the value; a string title matches when it is equal to the value. |
| Explore.SomeAuthorNamed | app/modules/explore/assets/scripts.js:59 | `some` holds exactly when some author has the given name. |
| Explore.FilterDatasetMeaning | app/modules/explore/assets/scripts.js:57-64 | A dataset passes exactly when all four checks pass. The size and file checks always apply. Author "any" and title "any" accept everything; otherwise some author has the name, or the title is equal. |
| Explore.ClearedFiltersAcceptAll | app/modules/explore/assets/scripts.js:189-199 | With the values "Clear filters" sets, every dataset passes. |
| Explore.FilterResults | app/modules/explore/assets/scripts.js:45 | The filtered list is no longer than the data. |
| Explore.FilterDataset | app/modules/explore/assets/scripts.js:57-64 | `filterDataset`: the conjunction of the size, author, title and file checks; what it accepts is stated by FilterDatasetMeaning. |
| Explore.FilterResultsMembers | app/modules/explore/assets/scripts.js:45 | The filtered list holds exactly the returned datasets that pass `filterDataset`. |
| Explore.FilterResultsMultiplicity | app/modules/explore/assets/scripts.js:45-46 | Each passing dataset is kept as many times as it was returned and each failing one not at all, so the result count is the number of returned datasets that pass. |
| Explore.FilterResultsAppend | app/modules/explore/assets/scripts.js:45 | Filtering a concatenation is the concatenation of the filtered parts, so the kept datasets stay in the order they were returned in. |
| Explore.ResultLabel | app/modules/explore/assets/scripts.js:48 | The label text `${resultCount} dataset(s) found`; what it reads as is stated by ResultLabelCount and ResultLabelNoun. |
| Explore.ResultLabelCount | app/modules/explore/assets/scripts.js:48 | The label starts with the decimal count, which reads back to the count, followed by a space. |
| Explore.ResultLabelNoun | app/modules/explore/assets/scripts.js:48 | The label ends in " dataset found" exactly for one result, and in " datasets found" otherwise. |
| Explore.AuthorNames | app/modules/explore/assets/scripts.js:159-161 | The author names of all returned datasets, dataset by dataset; their membership is stated by AuthorNamesMembers. |
| Explore.AuthorNamesMembers | app/modules/explore/assets/scripts.js:159-161 | A name is in the author list exactly when some returned dataset has an author of that name. |
| Explore.NamesOf | app/modules/explore/assets/scripts.js:160 | One name per author, in order. |
| Explore.Titles | app/modules/explore/assets/scripts.js:163-165 | One title per dataset, in order. |
| Explore.FirstIndex | app/modules/explore/assets/scripts.js:168 | The index of the first occurrence of a value: it holds the value and no earlier index does. |
| Explore.Unique | app/modules/explore/assets/scripts.js:168 | `Array.from(new Set(items))`; stated by UniqueMembers, UniqueNoDuplicates and UniqueFirstOccurrenceOrder. |
| Explore.UniqueMembers | app/modules/explore/assets/scripts.js:168 | `Array.from(new Set(items))` holds exactly the values of the items. |
| Explore.UniqueNoDuplicates | app/modules/explore/assets/scripts.js:168 | It holds each value once. |
| Explore.UniqueFirstOccurrenceOrder | app/modules/explore/assets/scripts.js:168 | Its values come in the order of their first occurrences in the items. |
| Explore.OptionsFor | app/modules/explore/assets/scripts.js:173-178 | One option per item, in order, whose value and text are the item. |
| Explore.SelectElement.AppendOptions | app/modules/explore/assets/scripts.js:173-178 | The options gain one option per item, appended in order; the selected value is unchanged. |
| Explore.SelectElement.PopulateDropdown | app/modules/explore/assets/scripts.js:167-183 | The options become "Any" followed by the unique items. The value stays the previous selection if the items hold it, and otherwise becomes "any". |
| Explore.ExplorePage.HandleResults | app/modules/explore/assets/scripts.js:44-55 | Shows the label for the number of filtered datasets. Shows "not found" exactly when there are none. Appends the filtered datasets to the results. Rebuilds both dropdowns from all returned datasets. |
| Explore.ExplorePage.AppendCards | app/modules/explore/assets/scripts.js:54 | The shown results gain the given datasets in order; the label and the notice are unchanged. |
| Explore.ExplorePage.Criteria | app/modules/explore/assets/scripts.js:23-32 | The size, author, title and file criteria as `sendQuery` reads them; author and title are the two dropdowns' current values. |
| Explore.ExplorePage.SendQuery | app/modules/explore/assets/scripts.js:18-42 | Clears the results, then handles the reply with the criteria read before the dropdowns are rebuilt. The results are exactly the filtered reply. Both dropdowns are rebuilt from the reply, each keeping its previous selection only when the reply still offers it. |
| DatasetModels.ValueNone | app/modules/dataset/models.py:12-31 | Only the NONE member has the value "none". |
| DatasetModels.NameCharacters | app/modules/dataset/models.py:12-31 | Every member name is non-empty, starts with an upper-case letter, and holds only upper-case letters and underscores. |
| DatasetModels.NameShape | app/modules/dataset/models.py:12-31 | The same fact, stated position by position. |
| DatasetModels.CleanedPublicationType | app/modules/dataset/models.py:98-99 | `get_cleaned_publication_type`: the same length as the member name; each position is given by CleanedPublicationTypeAt. |
| DatasetModels.CleanedAt | app/modules/dataset/models.py:99 | For any string of upper-case letters and underscores that starts with a letter, `replace('_', ' ').title()` turns underscores into spaces, keeps the first letter of each word and lowers the others. |
| DatasetModels.CleanedPublicationTypeAt | app/modules/dataset/models.py:98-99 | The cleaned type has the name's length. Each underscore becomes a space. The first letter of each word keeps its upper case and every other letter is lowered; for example JOURNAL_ARTICLE gives "Journal Article". |
| DatasetModels.FilesCount | app/modules/dataset/models.py:86-87 | `get_files_count`: 0 exactly when no feature model has a file. |
| DatasetModels.AllFiles | app/modules/dataset/models.py:183-184 | The serialised `files` list: all files of all feature models, as many as `get_files_count` counts. |
| DatasetModels.FileTotalSize | app/modules/dataset/models.py:94-96 | `get_file_total_size`: the sum of the sizes of all files; no file is larger than it. |
| DatasetModels.SumSizesAppend | app/modules/dataset/models.py:96 | The size sum over two lists of files is the sum of the two sums. |
| DatasetModels.FileTotalSizePerModel | app/modules/dataset/models.py:94-96 | The total size is 0 without feature models, and otherwise the first model's files plus the rest. |
| DatasetModels.SumSizesBounds | app/modules/dataset/models.py:94-96 | No file is larger than the total, and the total is 0 exactly when every file is empty. |
| DatasetModels.SumScoresAtLeast | app/modules/dataset/models.py:105 | The score sum is at least the count times the lowest score. |
| DatasetModels.SumScoresAtMost | app/modules/dataset/models.py:105 | The score sum is at most the count times the highest score. |
| DatasetModels.AverageRating | app/modules/dataset/models.py:102-105 | None exactly when there are no ratings. Otherwise the mean times the count is the score sum, and the mean lies between the lowest and the highest score. |
| DatasetModels.DataSetName | app/modules/dataset/models.py:108-109 | `name()`: the metadata's title. |
| DatasetModels.OptionalIntToString | app/modules/dataset/models.py:150 | `str()` of the deposition id: "None" exactly when there is no id. |
| DatasetModels.OptionalIntReadsBack | app/modules/dataset/models.py:150 | A non-negative deposition id renders as digits that read back to it. |
| DatasetModels.ZenodoUrl | app/modules/dataset/models.py:149-150 | None exactly when the dataset DOI is empty or null. Otherwise the link starts with "https://zenodo.org/record/", and the remainder reads back to the deposition id. |
| DatasetModels.TagList | app/modules/dataset/models.py:179 | The empty list exactly when the tags are empty or null. Otherwise the pieces joined with "," give the tags back, and no piece holds ",". |
| DatasetModels.TagListJoin | app/modules/dataset/models.py:179 | Tags without "," that are stored joined by "," read back as the same list. |
| DatasetModels.ToDict | app/modules/dataset/models.py:168-188 | `files` is every file of the feature models; `files_count` is its length and `total_size_in_bytes` the sum of its sizes. `tags`, `zenodo`, `average_rating` and `publication_type` are the values above, and `tags`, `zenodo` and `average_rating` are empty exactly in the cases stated there. The title, id and authors are the dataset's. |
| FakenodoServices.UploadType | app/modules/fakenodo/services.py:37 | "dataset" exactly when the publication type's value is "none", and "publication" otherwise. |
| FakenodoServices.DepositionPublicationType | app/modules/fakenodo/services.py:38-42 | Null exactly when the value is "none"; otherwise the value itself. |
| FakenodoServices.Creator | app/modules/fakenodo/services.py:45-49 | Always a "name" entry with the author's name. An "affiliation" or "orcid" entry is present exactly when that field is non-empty, and holds it. There are no other keys. |
| FakenodoServices.Creators | app/modules/fakenodo/services.py:44-51 | One creator per author, in the same order. |
| FakenodoServices.Keywords | app/modules/fakenodo/services.py:52-54 | The last keyword is always "uvlhub". With no tags, the keywords are exactly ["uvlhub"]. Otherwise the keywords before it, joined with ", ", give the tags back, and none holds ", ". |
| FakenodoServices.MetadataOf | app/modules/fakenodo/services.py:35-57 | The metadata hold the title and description. The upload type is "dataset" exactly when the publication type is null, which is exactly for NONE. There is one creator per author, with the author's name. The keywords end in "uvlhub". The access right is "open" and the licence "CC-BY-4.0". |
| FakenodoServices.Doi | app/modules/fakenodo/services.py:108 | The DOI is "10.5281/fakenodo." followed by the id's decimal rendering. |
| FakenodoServices.DoiInjective | app/modules/fakenodo/services.py:108 | Different ids get different DOIs. |
| FakenodoServices.DoiReadsBack | app/modules/fakenodo/services.py:108 | The part after the prefix reads back to the id. |
| FakenodoServices.FakenodoTable.GetDataset | app/modules/fakenodo/services.py:123-142 | An unknown id is the error "Dataset no encontrado". Otherwise the response carries the record's id, DOI and status and the success message. |
| FakenodoServices.FakenodoTable.GetDoi | app/modules/fakenodo/services.py:144-152 | The record's DOI; the lookup error passes through. |
| FakenodoServices.FakenodoTable.PublishDataset | app/modules/fakenodo/services.py:95-121 | An unknown id is an error and the table is unchanged. Otherwise only that record changes: it gets the DOI for its id and status "published". The response's concept DOI is that DOI, and `get_doi` then returns it. |
| BotServices.ServiceUrls | app/modules/bot/services.py:45-49 | One URL per bot, in the same order: each bot's `service_url`. |
| BotServices.DownloaderId | app/modules/bot/services.py:63 | None exactly for an anonymous download; otherwise the profile's user id. |
| BotServices.DatasetBody | app/modules/bot/services.py:68-72 | As written. With a profile, "Your dataset '<name>' has been downloaded" followed by " by <name> <surname>". Without one, only " by an anonymous user". |
| BotServices.FileBody | app/modules/bot/services.py:85-89 | As written. With a profile, "Your file '<file>' from the dataset <name> has been downloaded in <format> format" followed by " by <name> <surname>". Without one, only " by an anonymous user". |
| BotServices.AnonymousDatasetBodyLosesOpening | app/modules/bot/services.py:71-72 | As written, an anonymous download's dataset message does not start with "Your dataset '". |
| BotServices.AnonymousFileBodyLosesOpening | app/modules/bot/services.py:88-89 | As written, an anonymous download's file message does not start with "Your file '". |
| BotServices.IntendedDatasetBody | app/modules/bot/services.py:68-72 | Corrected. Every body starts with the dataset opening. An anonymous body ends with " by an anonymous user" after it. With a profile it is the body as written. |
| BotServices.IntendedFileBody | app/modules/bot/services.py:85-89 | Corrected: the same for the file message. |
| BotServices.OnDownloadDataset | app/modules/bot/services.py:61-75 | Nothing is sent exactly when the downloader is the uploader; an anonymous download is always reported. Otherwise the title is "Someone downloaded your dataset!", the body is the one above, and the URLs are the bots'. |
| BotServices.OnDownloadFile | app/modules/bot/services.py:78-92 | The same rule for a file of a dataset: title "Someone downloaded your file!", and the format defaults to "UVL". |
| FakenodoRoutes.PathJoin | app/modules/fakenodo/routes.py:28 | `os.path.join`. An absolute name replaces the directory. Otherwise the result starts with the directory and ends with the name, with one "/" between them when the directory does not already end in one. |
| FakenodoRoutes.Without | app/modules/fakenodo/routes.py:73 | The key order after `pop` holds exactly the other keys and stays ascending. |
| FakenodoRoutes.FakenodoStorage.constructor | app/modules/fakenodo/routes.py:7-9 | The store starts empty with counter 1, and the invariant holds. |
| FakenodoRoutes.FakenodoStorage.HandleUpload | app/modules/fakenodo/routes.py:12-43 | A named file gets the current counter as its id, under which no record exists yet. It is stored with that id, its name and its path, and the counter grows by exactly 1; the reply is 201 with the id and name. A missing or unnamed file gives 400 "No file uploaded" and changes nothing. |
| FakenodoRoutes.FakenodoStorage.HandleDownload | app/modules/fakenodo/routes.py:46-57 | A stored id gives 200 and the attachment with the stored path and name; an unknown id gives 404 "Dataset not found". |
| FakenodoRoutes.FakenodoStorage.ListAllDatasets | app/modules/fakenodo/routes.py:60-65 | The stored records in the dictionary's order. Every stored record is listed once, nothing else is listed, and the ids ascend. |
| FakenodoRoutes.FakenodoStorage.DeleteDataset | app/modules/fakenodo/routes.py:68-80 | A stored id is removed, and only it, with 200. An unknown id gives 404 and changes nothing. The counter never changes. |
| Strings.NatToString | app/modules/explore/assets/scripts.js:48 | `${n}` for a non-negative integer: at least one digit, all digits, and no leading zero except for 0 itself. |
| Strings.IntToString | app/modules/fakenodo/services.py:108 | `str(i)`: the digits of a non-negative integer, or "-" followed by the digits of its absolute value. |
| Strings.NatToStringRoundTrip | app/modules/explore/assets/scripts.js:48 | The decimal rendering of a number reads back to the number. |
| Strings.IntToStringInjective | app/modules/fakenodo/services.py:108 | Different integers render differently. |
| Strings.Find | app/modules/fakenodo/services.py:53 | The leftmost occurrence of the separator, or None exactly when there is none. |
| Strings.Split | app/modules/dataset/models.py:179 | `str.split` with a non-empty separator. At least one piece, no piece holds the separator, and the pieces joined with it give the string back. |
| Strings.Join | app/modules/dataset/models.py:179 | `sep.join(parts)`: the empty list gives "", one part is itself, and otherwise the parts with the separator between them; Split and SplitJoin state its relation to splitting. |
| Strings.SplitJoin | app/modules/dataset/models.py:179 | For a one-character separator, splitting undoes joining pieces that do not contain it. |
| Strings.ReplaceChar | app/modules/dataset/models.py:99 | Same length; every occurrence of the character is replaced and nothing else changes. |
| Strings.TitleCase | app/modules/dataset/models.py:99 | `str.title` for ASCII: the same length; each position is given by TitleCaseAt. |
| Strings.TitleCaseAt | app/modules/dataset/models.py:99 | `str.title` agrees, position by position, with the rule stated without the walk over the string. |
| Strings.TitleFromAt | app/modules/dataset/models.py:99 | Position by position, `str.title` lowers a letter after a letter, raises any other letter, and keeps the other characters. |

## Left out

- The explore page's `fetch`, the DOM and date formatting are left out:
  - the server's reply is a parameter of `SendQuery`;
  - SendQuery: the query and the handling of its reply are one step. In the page a second query can start before an earlier reply arrives. Both then clear the results, both replies append their cards, and the container holds the cards of both replies while the label shows only the last reply's count. The model does not capture this interleaving.
  - `createDatasetCard` is represented by appending the dataset itself;
  - `formatDate`, `console.warn` and the server-side criteria (query, publication type, sorting) are not modelled.
- `matchFiles` converts the count with `Number`. The count is modelled as an integer, which is what `to_dict` serialises.
- `matchSize` looks keys up with `in`, which also finds inherited names such as "toString" and then returns a function value. A function value is truthy in `filterDataset`, so the model returns true for every key outside the six buckets.
- `get_average_rating` divides in floating point; the model uses exact real division.
- `str.title` is modelled for ASCII; publication-type names are ASCII.
- CleanedPublicationTypeAt: the example JOURNAL_ARTICLE ↦ "Journal Article" follows from the position-wise statement. It is not stated as a separate equality of strings.
- `to_dict` entries computed by other services are not modelled: `created_at`, `url` (the uvlhub DOI), `download` (the request host) and the human-readable size. Authors are kept as records rather than as their `to_dict` dictionaries.
- `create_new_dataset`: only the metadata is modelled. The repository call that stores it, and the response built from the stored id, are left out because the repository is not part of this model. The same holds for the exception wrapping.
- `upload_file` and `calculate_checksum` read the file system and are left out.
- PublishDataset: the repository `update` and the wrapping of its exceptions are left out.
- `app/modules/fakenodo/services.py` line 4 imports `Dataset` from the dataset models module, which defines only `DataSet` (line 68), so importing the service raises ImportError as written. The `doi` and `status` columns it writes belong to the Fakenodo table (`app/modules/fakenodo/models.py`), and `FakenodoTable` models that table.
- `get_zenodo_url` and `to_dict` are methods of `DSMetaData` (`app/modules/dataset/models.py` lines 149-150 and 168-188) that read `self.ds_meta_data`, which only `DataSet` has; as written they raise AttributeError. They are modelled once, as functions of `DataSet`.
- `app/modules/fakenodo/routes.py` holds unresolved merge-conflict markers (lines 1, 81 and 123), so as written the module does not parse. The routes are modelled from the `HEAD` side (lines 2-80).
- OnDownloadFile: the dataset is a separate parameter standing for `file.feature_model.data_set`; the model does not tie the file to it, and the caller must pass the file's own dataset.
- GetDataset: the response's `metadata` entry is left out. On a SQLAlchemy model, `dataset.metadata` is the schema's `MetaData` object, not a column.
- The bot repository's queries that choose which bots to notify are not part of this model. The bots they return are a parameter, and `Bot` keeps only the fields read here. `app/modules/bot/models.py` shows no `service_url` column; the services read one, and the model takes it as given.
- Sending the message (`apprise.send_message`), `send_test_message` and the bot CRUD pass-throughs in `BotService` are left out.
- Fakenodo routes:
  - The temporary directory (`tempfile.mkdtemp`) is a parameter.
  - `save`, `send_file` and `os.remove` touch the file system and are left out. Their failures are therefore not modelled. The counter moves on before `save`, so a failing save uses up an id and stores nothing. `pop` runs before `os.remove`, so a missing file still removes the record, and the reply is a 500 error.
  - The module-level dictionary and counter are one object; concurrent requests are not modelled.
  - The `origin/fakenodo` side of the merge conflict in `app/modules/fakenodo/routes.py` (lines 82-122) holds constant-response stubs and is not modelled.
- Keywords: for the two-character separator ", ", the model states that the keywords join back to the tags. It does not state the converse, that splitting a joined list gives the list back.

## Findings

| source | as written | input that shows it | evidently intended | confidence | as-written member | corrected member |
|---|---|---|---|---|---|---|
| app/modules/explore/assets/scripts.js:108 | `moreThan5KB: totalSize > 5120`, after `between4KBand5KB` ends below 5120 | A dataset of exactly 5120 bytes matches none of the six size keys, so every size filter hides it | `totalSize >= 5120`, so the six buckets partition the sizes | not executed | Explore.SizeCoverage | Explore.SizeIntendedPartition |
| app/modules/bot/services.py:71-72 | `body = f" by an anonymous user"` replaces the body | An anonymous download (profile None) of any dataset: the message is " by an anonymous user", with no dataset name | `body += ...`, as in the branch with a profile | not executed | BotServices.AnonymousDatasetBodyLosesOpening | BotServices.IntendedDatasetBody |
| app/modules/bot/services.py:88-89 | `body = f" by an anonymous user"` replaces the body | An anonymous download (profile None) of any file: the message names neither the file nor the dataset | `body += ...`, as in the branch with a profile | not executed | BotServices.AnonymousFileBodyLosesOpening | BotServices.IntendedFileBody |

The page and notification methods follow the code as written. The corrected definitions sit beside them, with their intended property proved.
