/** The in-memory Fakenodo store behind the upload, download, list and
    delete routes: a dictionary of stored datasets keyed by id and the
    counter that hands out the next id. */
module FakenodoRoutes {
  import opened Wrappers
  import opened Strings

  /** The record kept for an uploaded file. */
  datatype StoredDataset = StoredDataset(id: int, filename: string, filePath: string)

  /** The file part of an upload request; `filename` is empty when the form
      field carried no file name. */
  datatype UploadedFile = UploadedFile(filename: string)

  datatype Body =
    | UploadAccepted(datasetId: int, filename: string)
    | Attachment(filePath: string, downloadName: string)
    | Listing(datasets: seq<StoredDataset>)
    | Message(message: string)
    | Error(error: string)

  datatype Reply = Reply(body: Body, status: int)

  /** `os.path.join` of a directory and a file name on POSIX: an absolute
      name replaces the directory, otherwise a "/" separates them unless the
      directory is empty or already ends with one. */
  function PathJoin(dir: string, name: string): (r: string)
    ensures StartsWith(name, "/") ==> r == name
    ensures !StartsWith(name, "/") ==> EndsWith(r, name) && StartsWith(r, dir)
    ensures !StartsWith(name, "/") && dir != "" && !EndsWith(dir, "/") ==>
      |r| == |dir| + 1 + |name| && r[|dir|] == '/'
  {
    if StartsWith(name, "/") then name
    else
      var r := if dir == "" || EndsWith(dir, "/") then dir + name else dir + "/" + name;
      assert r[..|dir|] == dir;
      assert r[|r| - |name|..] == name;
      r
  }

  predicate Increasing(s: seq<int>)
  {
    forall i, j :: 0 <= i < j < |s| ==> s[i] < s[j]
  }

  /** The key order without one key, as a dictionary keeps it after `pop`. */
  function Without(order: seq<int>, k: int): (r: seq<int>)
    ensures forall x :: x in r <==> x in order && x != k
    ensures Increasing(order) ==> Increasing(r)
    ensures |r| <= |order|
  {
    if order == [] then []
    else
      var rest := Without(order[1..], k);
      assert forall x :: x in order[1..] ==> x in order;
      if order[0] == k then rest
      else
        var r := [order[0]] + rest;
        assert Increasing(order) ==> Increasing(r) by {
          if Increasing(order) {
            assert Increasing(order[1..]);
            forall i, j | 0 <= i < j < |r| ensures r[i] < r[j] {
              assert r[j] == rest[j - 1] && r[j] in rest;
              var m :| 0 <= m < |order[1..]| && order[1..][m] == r[j];
              assert order[m + 1] == r[j];
              if i > 0 {
                assert r[i] == rest[i - 1];
              }
            }
          }
        }
        r
  }

  class FakenodoStorage {
    /** `datasets_storage`. */
    var datasets: map<int, StoredDataset>
    /** `dataset_id_counter`: the id the next upload gets. */
    var datasetIdCounter: int
    /** The dictionary's key order (the order of insertion). */
    var order: seq<int>

    /** Ids are handed out from 1 upwards and never reused: every key is
        below the counter, every record carries its key, and the keys in
        insertion order are exactly the stored ids, ascending. */
    ghost predicate Valid()
      reads this
    {
      && datasetIdCounter >= 1
      && (forall k | k in datasets :: 1 <= k < datasetIdCounter && datasets[k].id == k)
      && Increasing(order)
      && (forall i :: 0 <= i < |order| ==> order[i] in datasets)
      && (forall k | k in datasets :: k in order)
    }

    constructor()
      ensures Valid()
      ensures datasets == map[] && datasetIdCounter == 1 && order == []
    {
      datasets := map[];
      datasetIdCounter := 1;
      order := [];
    }

    /** `handle_upload`: a named file gets the current counter as its id, is
        stored under it (no existing record is replaced) and the counter
        moves on by one; a missing or unnamed file is refused with 400 and
        changes nothing. The temporary directory is a parameter. */
    method HandleUpload(upload: Option<UploadedFile>, tempDir: string) returns (reply: Reply)
      requires Valid()
      modifies this
      ensures Valid()
      ensures upload.Some? && upload.value.filename != "" ==>
        && datasetIdCounter == old(datasetIdCounter) + 1
        && old(datasetIdCounter) !in old(datasets)
        && datasets == old(datasets)[old(datasetIdCounter) :=
             StoredDataset(old(datasetIdCounter), upload.value.filename, PathJoin(tempDir, upload.value.filename))]
        && order == old(order) + [old(datasetIdCounter)]
        && reply == Reply(UploadAccepted(old(datasetIdCounter), upload.value.filename), 201)
      ensures !(upload.Some? && upload.value.filename != "") ==>
        && datasets == old(datasets) && datasetIdCounter == old(datasetIdCounter) && order == old(order)
        && reply == Reply(Error("No file uploaded"), 400)
    {
      if upload.Some? && upload.value.filename != "" {
        assert forall i :: 0 <= i < |order| ==> order[i] < datasetIdCounter;
        var uploadedFile := upload.value;
        var datasetId := datasetIdCounter;
        datasetIdCounter := datasetIdCounter + 1;
        var filePath := PathJoin(tempDir, uploadedFile.filename);
        datasets := datasets[datasetId := StoredDataset(datasetId, uploadedFile.filename, filePath)];
        order := order + [datasetId];
        return Reply(UploadAccepted(datasetId, uploadedFile.filename), 201);
      }
      return Reply(Error("No file uploaded"), 400);
    }

    /** `handle_download`: the stored file as an attachment under its
        original name, or 404 for an unknown id. */
    function HandleDownload(datasetId: int): (reply: Reply)
      reads this
      ensures datasetId in datasets ==>
        reply == Reply(Attachment(datasets[datasetId].filePath, datasets[datasetId].filename), 200)
      ensures datasetId !in datasets ==> reply == Reply(Error("Dataset not found"), 404)
      ensures reply.status == 200 || reply.status == 404
    {
      if datasetId in datasets then
        var dataset := datasets[datasetId];
        Reply(Attachment(dataset.filePath, dataset.filename), 200)
      else Reply(Error("Dataset not found"), 404)
    }

    /** `list_all_datasets`: the stored records in the dictionary's order,
        which lists each stored record once, by ascending id. */
    function ListAllDatasets(): (r: seq<StoredDataset>)
      requires Valid()
      reads this
      ensures |r| == |order|
      ensures forall i :: 0 <= i < |r| ==> r[i] == datasets[order[i]]
      ensures forall d :: d in r ==> d in datasets.Values
      ensures forall k | k in datasets :: datasets[k] in r
      ensures forall i, j :: 0 <= i < j < |r| ==> r[i].id < r[j].id
    {
      var keys := order;
      var m := datasets;
      var r := seq(|keys|, i requires 0 <= i < |keys| => m[keys[i]]);
      assert forall k | k in m :: m[k] in r by {
        forall k | k in m ensures m[k] in r {
          var i :| 0 <= i < |keys| && keys[i] == k;
          assert r[i] == m[k];
        }
      }
      r
    }

    /** `delete_dataset`: a stored id is removed, and only that one, with
        200; an unknown id gives 404 and changes nothing. The counter is
        left alone either way, so ids are never handed out twice. */
    method DeleteDataset(datasetId: int) returns (reply: Reply)
      requires Valid()
      modifies this
      ensures Valid()
      ensures datasetIdCounter == old(datasetIdCounter)
      ensures datasetId in old(datasets) ==>
        && datasets == old(datasets) - {datasetId}
        && order == Without(old(order), datasetId)
        && reply == Reply(Message("Dataset deleted successfully"), 200)
      ensures datasetId !in old(datasets) ==>
        && datasets == old(datasets) && order == old(order)
        && reply == Reply(Error("Dataset not found"), 404)
    {
      if datasetId in datasets {
        datasets := datasets - {datasetId};
        ghost var before := order;
        order := Without(order, datasetId);
        forall i | 0 <= i < |order| ensures order[i] in datasets {
          assert order[i] in order;
        }
        forall k | k in datasets ensures k in order {
          var j :| 0 <= j < |before| && before[j] == k;
          assert k in before;
        }
        return Reply(Message("Dataset deleted successfully"), 200);
      }
      return Reply(Error("Dataset not found"), 404);
    }
  }
}
