/** The search screen (SearchViewController.swift): the stored maps whose file name contains
    the searched text, and the delete and lock requests its cells send.

    The directory enumeration behind `getAllFiles(with:)` is an input, as in `Storage`; the
    outcome of the owner's authentication is an input of `LockMap`. */
module Search {
  import opened Common
  import opened FileCells
  import opened MapFiles
  import opened Storage

  const DeleteFailed: string := "Wasn't able to delete your map!"
  const LockFailed: string := "Wasn't able to lock your map!"

  /** The map file names that contain `search` (case-sensitively), in their order. */
  function Filter(paths: seq<string>, search: string): (r: seq<string>)
    ensures forall p :: p in r <==> p in paths && Contains(p, search)
    ensures |r| <= |paths|
  {
    if paths == [] then []
    else if Contains(paths[0], search) then [paths[0]] + Filter(paths[1..], search)
    else Filter(paths[1..], search)
  }

  /** Filtering keeps the order of the names: the names kept from a concatenation are
      those kept from its first part followed by those kept from its second part. */
  lemma {:induction false} FilterAppend(a: seq<string>, b: seq<string>, search: string)
    ensures Filter(a + b, search) == Filter(a, search) + Filter(b, search)
  {
    if a == [] {
      assert a + b == b;
    } else {
      assert (a + b)[0] == a[0];
      assert (a + b)[1..] == a[1..] + b;
      FilterAppend(a[1..], b, search);
    }
  }

  /** What the search shows for the file `path`: nothing when the file cannot be read or
      decoded or when the preview `<root name>.png` cannot be read; otherwise the stored map
      with the preview's image, or with the folder icon when the preview is not an image. */
  function Lookup(files: map<string, Data>, path: string): (r: Option<MapFile>)
    ensures r.None? <==> path !in files || Decode(files[path]).None? ||
                         Decode(files[path]).value.rootNode.name + PngExtension !in files
    ensures r.Some? ==> r.value.rootNode == Decode(files[path]).value.rootNode
    ensures r.Some? ==> r.value.contentViewSize == Decode(files[path]).value.contentViewSize
    ensures r.Some? ==> r.value.state == Decode(files[path]).value.state
    ensures r.Some? ==> var png := files[r.value.rootNode.name + PngExtension];
                        r.value.image == if png.ImageData? then png.image else Folder
  {
    if path !in files then None
    else
      var mapData := Decode(files[path]);
      if mapData.None? then None
      else
        var m := mapData.value;
        var png := m.rootNode.name + PngExtension;
        if png !in files then None
        else Some(MapFile(ImageFrom(files[png]).GetOr(Folder), m.rootNode, m.contentViewSize, m.state))
  }

  /** The maps the search shows for the files `paths`, in the order of `paths`. */
  function Results(files: map<string, Data>, paths: seq<string>): (r: seq<MapFile>)
    ensures |r| <= |paths|
  {
    if paths == [] then []
    else
      var first := Lookup(files, paths[0]);
      (if first.Some? then [first.value] else []) + Results(files, paths[1..])
  }

  /** The results for a concatenation are the results for its first part followed by those
      for its second part: one file's failure does not affect the others. */
  lemma {:induction false} ResultsAppend(files: map<string, Data>, a: seq<string>, b: seq<string>)
    ensures Results(files, a + b) == Results(files, a) + Results(files, b)
  {
    if a == [] {
      assert a + b == b;
    } else {
      assert (a + b)[0] == a[0];
      assert (a + b)[1..] == a[1..] + b;
      ResultsAppend(files, a[1..], b);
    }
  }

  /** Every result is what one of the files reads as. */
  lemma {:induction false} ResultsFromFiles(files: map<string, Data>, paths: seq<string>, m: MapFile)
    requires m in Results(files, paths)
    ensures exists p :: p in paths && Lookup(files, p) == Some(m)
  {
    var first := Lookup(files, paths[0]);
    if first != Some(m) {
      ResultsFromFiles(files, paths[1..], m);
      var p :| p in paths[1..] && Lookup(files, p) == Some(m);
      assert p in paths;
    }
  }

  /** Every file that reads as a map is among the results. */
  lemma {:induction false} FilesInResults(files: map<string, Data>, paths: seq<string>, p: string)
    requires p in paths && Lookup(files, p).Some?
    ensures Lookup(files, p).value in Results(files, paths)
  {
    if paths[0] != p {
      assert p in paths[1..];
      FilesInResults(files, paths[1..], p);
    }
  }

  /** The search for `search`: the results for the listed map files whose name contains
      the searched text. */
  function Searched(files: map<string, Data>, listing: Option<seq<Entry>>, search: string): seq<MapFile> {
    Results(files, Filter(AllFiles(listing, MmdExtension), search))
  }

  /** A map is found exactly when it is what a listed `.mmd` file whose name contains the
      searched text reads as. */
  lemma SearchedMaps(files: map<string, Data>, listing: Option<seq<Entry>>, search: string, m: MapFile)
    ensures m in Searched(files, listing, search) <==>
            exists p :: p in AllFiles(listing, MmdExtension) && Contains(p, search) && Lookup(files, p) == Some(m)
  {
    var paths := Filter(AllFiles(listing, MmdExtension), search);
    if m in Searched(files, listing, search) {
      ResultsFromFiles(files, paths, m);
    }
    if exists p :: p in AllFiles(listing, MmdExtension) && Contains(p, search) && Lookup(files, p) == Some(m) {
      var p :| p in AllFiles(listing, MmdExtension) && Contains(p, search) && Lookup(files, p) == Some(m);
      FilesInResults(files, paths, p);
    }
  }

  /** The name of a map's preview and the name of its map file differ. */
  lemma PreviewIsNotMap(name: string)
    ensures name + PngExtension != name + MmdExtension
  {
    assert (name + PngExtension)[|name| + 1] != (name + MmdExtension)[|name| + 1];
  }

  class SearchViewController {
    const storage: FileStorage
    var searchedFiles: seq<MapFile>
    /** `searchBar.text`. */
    var searchText: Option<string>
    /** `noResultsLabel.isHidden`. */
    var noResultsHidden: bool

    constructor (storage: FileStorage)
      ensures this.storage == storage && searchedFiles == [] && searchText == Some("")
    {
      this.storage := storage;
      searchedFiles := [];
      searchText := Some("");
      noResultsHidden := false;
    }

    /** `fetchSearchedDocuments(search:)`: reads the listed map files whose name contains
        `search`, one after the other, keeping each one that can be shown. */
    method FetchSearchedDocuments(search: string, listing: Option<seq<Entry>>) returns (mapFiles: seq<MapFile>)
      ensures mapFiles == Searched(storage.files, listing, search)
    {
      var paths := Filter(AllFiles(listing, MmdExtension), search);
      mapFiles := [];
      var i := 0;
      while i < |paths|
        invariant 0 <= i <= |paths|
        invariant mapFiles == Results(storage.files, paths[..i])
      {
        var path := paths[i];
        var found: seq<MapFile> := [];
        var encodedMapFile := storage.GetFile(path);
        if encodedMapFile.Some? {
          var mapData := Decode(encodedMapFile.value);
          if mapData.Some? {
            var m := mapData.value;
            var imageData := storage.GetFile(m.rootNode.name + PngExtension);
            if imageData.Some? {
              var image := ImageFrom(imageData.value);
              if image.Some? {
                found := [MapFile(image.value, m.rootNode, m.contentViewSize, m.state)];
              } else {
                found := [MapFile(Folder, m.rootNode, m.contentViewSize, m.state)];
              }
            }
          }
        }
        assert found == Results(storage.files, [path]);
        assert paths[..i + 1] == paths[..i] + [path];
        ResultsAppend(storage.files, paths[..i], [path]);
        mapFiles := mapFiles + found;
        i := i + 1;
      }
      assert paths[..i] == paths;
    }

    /** `reloadData()`: with search text, shows the maps found for it and hides the
        "no results" label exactly when there are some; without search text, changes
        nothing. */
    method ReloadData(listing: Option<seq<Entry>>)
      modifies this`searchedFiles, this`noResultsHidden
      ensures searchText.Some? ==> searchedFiles == Searched(storage.files, listing, searchText.value)
      ensures searchText.Some? ==> (noResultsHidden <==> searchedFiles != [])
      ensures searchText.None? ==> searchedFiles == old(searchedFiles) && noResultsHidden == old(noResultsHidden)
    {
      if searchText.Some? {
        searchedFiles := FetchSearchedDocuments(searchText.value, listing);
        noResultsHidden := searchedFiles != [];
      }
    }

    /** `deleteMap(with:)`: deletes the preview, then the map file, then reloads. When the
        preview cannot be deleted the map file is not touched; when either delete fails the
        error is reported and the results are not reloaded. */
    method DeleteMap(name: string, listing: Option<seq<Entry>>) returns (report: Status)
      requires storage.Valid()
      modifies storage, this`searchedFiles, this`noResultsHidden
      ensures storage.Valid()
      ensures report.Ok? <==> name + PngExtension in old(storage.files) && name + MmdExtension in old(storage.files)
      ensures report.Failed? ==> report.message == DeleteFailed
      ensures name + PngExtension in old(storage.files) ==>
                storage.files == old(storage.files) - {name + PngExtension, name + MmdExtension}
      ensures name + PngExtension !in old(storage.files) ==> storage.files == old(storage.files)
      ensures report.Ok? && searchText.Some? ==> searchedFiles == Searched(storage.files, listing, searchText.value)
      ensures report.Ok? && searchText.Some? ==> (noResultsHidden <==> searchedFiles != [])
      ensures report.Failed? || searchText.None? ==>
                searchedFiles == old(searchedFiles) && noResultsHidden == old(noResultsHidden)
    {
      PreviewIsNotMap(name);
      var ok := storage.DeleteFile(name + PngExtension);
      if ok {
        ok := storage.DeleteFile(name + MmdExtension);
      }
      if ok {
        ReloadData(listing);
        report := Ok;
      } else {
        report := Failed(DeleteFailed);
      }
    }

    /** `lockMap(state:with:)` once the owner's authentication has ended: after a success,
        rewrites the map file `name.mmd` with `state` and everything else it held (image,
        nodes, canvas size) unchanged, then reloads; after a failure, or when the map file
        cannot be read or decoded, reports the error and writes nothing. */
    method LockMap(state: MapState, name: string, authenticated: bool, now: Date, listing: Option<seq<Entry>>)
      returns (report: Status)
      requires storage.Valid()
      modifies storage, this`searchedFiles, this`noResultsHidden
      ensures storage.Valid()
      ensures report.Ok? <==>
                authenticated && name + MmdExtension in old(storage.files) &&
                Decode(old(storage.files)[name + MmdExtension]).Some?
      ensures report.Failed? ==> report.message == LockFailed
      ensures report.Ok? ==> storage.files == old(storage.files)[name + MmdExtension :=
                                                   old(storage.files)[name + MmdExtension].(state := state)]
      ensures report.Ok? ==> storage.modified == old(storage.modified)[name + MmdExtension := now]
      ensures report.Ok? ==> Decode(storage.files[name + MmdExtension]) ==
                             Some(Decode(old(storage.files)[name + MmdExtension]).value.(state := state))
      ensures report.Failed? ==> storage.files == old(storage.files) && storage.modified == old(storage.modified)
      ensures report.Ok? && searchText.Some? ==> searchedFiles == Searched(storage.files, listing, searchText.value)
      ensures report.Ok? && searchText.Some? ==> (noResultsHidden <==> searchedFiles != [])
      ensures report.Failed? || searchText.None? ==>
                searchedFiles == old(searchedFiles) && noResultsHidden == old(noResultsHidden)
    {
      if !authenticated {
        return Failed(LockFailed);
      }
      var path := name + MmdExtension;
      var encodedMapFile := storage.GetFile(path);
      if encodedMapFile.None? {
        return Failed(LockFailed);
      }
      var mapData := Decode(encodedMapFile.value);
      if mapData.None? {
        return Failed(LockFailed);
      }
      var mapFile := MapFile(mapData.value.image, mapData.value.rootNode, mapData.value.contentViewSize, state);
      EncodeDecode(encodedMapFile.value);
      var ok := storage.WriteFile(Encode(mapFile), path, now);
      if !ok {
        return Failed(LockFailed);
      }
      ReloadData(listing);
      report := Ok;
    }
  }
}
