/** Download notifications: which bots are told, and the title and body of
    the message sent when someone downloads a dataset or a file. Sending the
    message is outside this model; a method returns the message it would
    send, or nothing when it sends none. */
module BotServices {
  import opened Wrappers
  import opened Strings
  import opened DatasetModels

  /** A bot, reduced to the column the notifications read. The repository
      queries that choose which of a user's bots are notified are not part
      of this model: the bots they return are a parameter. */
  datatype Bot = Bot(name: string, serviceUrl: string)

  /** The downloader's profile. */
  datatype Profile = Profile(userId: int, name: string, surname: string)

  datatype Notification = Notification(urls: seq<string>, title: string, body: string)

  /** `get_on_download_dataset_bot_urls` and `get_on_download_file_bot_urls`:
      the service URLs of the given bots, one per bot, in the same order. */
  function ServiceUrls(bots: seq<Bot>): (r: seq<string>)
    ensures |r| == |bots|
    ensures forall i :: 0 <= i < |bots| ==> r[i] == bots[i].serviceUrl
  {
    if bots == [] then [] else [bots[0].serviceUrl] + ServiceUrls(bots[1..])
  }

  /** The downloader's user id: none for an anonymous download, so an
      anonymous download is never taken for the uploader's own. */
  function DownloaderId(profile: Option<Profile>): (r: Option<int>)
    ensures r.None? <==> profile.None?
    ensures r.Some? ==> r.value == profile.value.userId
  {
    if profile.Some? then Some(profile.value.userId) else None
  }

  const DatasetTitle := "Someone downloaded your dataset!"
  const FileTitle := "Someone downloaded your file!"
  const AnonymousSuffix := " by an anonymous user"

  function DatasetOpening(datasetName: string): string
  {
    "Your dataset '" + datasetName + "' has been downloaded"
  }

  function FileOpening(fileName: string, datasetName: string, format: string): string
  {
    "Your file '" + fileName + "' from the dataset " + datasetName + " has been downloaded in " + format + " format"
  }

  function ByProfile(p: Profile): string
  {
    " by " + p.name + " " + p.surname
  }

  /** The body `on_download_dataset` builds, as written: with a profile the
      opening followed by the downloader's name; without one, the opening is
      overwritten and only the anonymous suffix is left. */
  function DatasetBody(datasetName: string, profile: Option<Profile>): (r: string)
    ensures profile.Some? ==> StartsWith(r, DatasetOpening(datasetName))
    ensures profile.Some? ==> r[|DatasetOpening(datasetName)|..] == ByProfile(profile.value)
    ensures profile.None? ==> r == AnonymousSuffix
  {
    var opening := DatasetOpening(datasetName);
    if profile.Some? then
      var r := opening + ByProfile(profile.value);
      assert r[..|opening|] == opening;
      r
    else AnonymousSuffix
  }

  /** The body `on_download_file` builds, as written. */
  function FileBody(fileName: string, datasetName: string, format: string, profile: Option<Profile>): (r: string)
    ensures profile.Some? ==> StartsWith(r, FileOpening(fileName, datasetName, format))
    ensures profile.Some? ==> r[|FileOpening(fileName, datasetName, format)|..] == ByProfile(profile.value)
    ensures profile.None? ==> r == AnonymousSuffix
  {
    var opening := FileOpening(fileName, datasetName, format);
    if profile.Some? then
      var r := opening + ByProfile(profile.value);
      assert r[..|opening|] == opening;
      r
    else AnonymousSuffix
  }

  /** As written, an anonymous download's message no longer says which
      dataset was downloaded: the body does not even start like the
      message for a known downloader. */
  lemma AnonymousDatasetBodyLosesOpening(datasetName: string)
    ensures !StartsWith(DatasetBody(datasetName, None), "Your dataset '")
  {
    assert DatasetBody(datasetName, None)[0] == ' ';
  }

  lemma AnonymousFileBodyLosesOpening(fileName: string, datasetName: string, format: string)
    ensures !StartsWith(FileBody(fileName, datasetName, format, None), "Your file '")
  {
    assert FileBody(fileName, datasetName, format, None)[0] == ' ';
  }

  /** The evidently intended body: the suffix is appended in both cases. */
  function IntendedDatasetBody(datasetName: string, profile: Option<Profile>): (r: string)
    ensures StartsWith(r, DatasetOpening(datasetName))
    ensures profile.None? ==> r[|DatasetOpening(datasetName)|..] == AnonymousSuffix
    ensures profile.Some? ==> r == DatasetBody(datasetName, profile)
  {
    var opening := DatasetOpening(datasetName);
    var r := opening + if profile.Some? then ByProfile(profile.value) else AnonymousSuffix;
    assert r[..|opening|] == opening;
    r
  }

  function IntendedFileBody(fileName: string, datasetName: string, format: string, profile: Option<Profile>): (r: string)
    ensures StartsWith(r, FileOpening(fileName, datasetName, format))
    ensures profile.None? ==> r[|FileOpening(fileName, datasetName, format)|..] == AnonymousSuffix
    ensures profile.Some? ==> r == FileBody(fileName, datasetName, format, profile)
  {
    var opening := FileOpening(fileName, datasetName, format);
    var r := opening + if profile.Some? then ByProfile(profile.value) else AnonymousSuffix;
    assert r[..|opening|] == opening;
    r
  }

  /** `on_download_dataset`: nothing when the uploader downloads their own
      dataset; otherwise the dataset title, the body and the URLs of the
      uploader's bots. */
  method OnDownloadDataset(dataset: DataSet, profile: Option<Profile>, bots: seq<Bot>)
    returns (sent: Option<Notification>)
    ensures sent.None? <==> profile.Some? && profile.value.userId == dataset.userId
    ensures sent.Some? ==> sent.value.title == DatasetTitle
    ensures sent.Some? ==> sent.value.body == DatasetBody(DataSetName(dataset), profile)
    ensures sent.Some? ==> sent.value.urls == ServiceUrls(bots)
  {
    var uploaderId := dataset.userId;
    var downloaderId := DownloaderId(profile);
    if downloaderId == Some(uploaderId) {
      return None;
    }
    var title := DatasetTitle;
    var body := "Your dataset '" + DataSetName(dataset) + "' has been downloaded";
    if profile.Some? {
      body := body + " by " + profile.value.name + " " + profile.value.surname;
    } else {
      body := " by an anonymous user";
    }
    var urls := ServiceUrls(bots);
    sent := Some(Notification(urls, title, body));
  }

  /** `on_download_file`: the same rule for a file; the owner is the user of
      the file's dataset and the format defaults to UVL. `dataset` stands
      for `file.feature_model.data_set`: the caller passes the file's own
      dataset, and nothing in `File` links the two. */
  method OnDownloadFile(file: File, dataset: DataSet, profile: Option<Profile>, bots: seq<Bot>, format: string := "UVL")
    returns (sent: Option<Notification>)
    ensures sent.None? <==> profile.Some? && profile.value.userId == dataset.userId
    ensures sent.Some? ==> sent.value.title == FileTitle
    ensures sent.Some? ==> sent.value.body == FileBody(file.name, DataSetName(dataset), format, profile)
    ensures sent.Some? ==> sent.value.urls == ServiceUrls(bots)
  {
    var uploaderId := dataset.userId;
    var downloaderId := DownloaderId(profile);
    if downloaderId == Some(uploaderId) {
      return None;
    }
    var title := FileTitle;
    var body := "Your file '" + file.name + "' from the dataset " + DataSetName(dataset)
      + " has been downloaded in " + format + " format";
    if profile.Some? {
      body := body + " by " + profile.value.name + " " + profile.value.surname;
    } else {
      body := " by an anonymous user";
    }
    var urls := ServiceUrls(bots);
    sent := Some(Notification(urls, title, body));
  }
}
