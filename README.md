# MindMap document core in Dafny

A model of the core of MindMap, an iOS mind-mapping app. Four parts are modelled.

- **Node tree** (`node.dfy`, module `NodeTree`). A map document is a tree of nodes. Each
  node has a UUID, a name, an optional centre position, ordered children and a weak
  parent link. The model keeps one document's nodes in an arena: a map from UUID to
  record, where `children` and `parent` hold UUIDs. Class `Tree` owns the arena. Its
  `Valid()` says the tree has one root, agreeing child and parent links, no child listed
  twice, and no cycles.
  A ghost rank on each node falls along child links; it proves that searches and
  parent walks end.
- **Editing canvas** (`map_scroll_view.dfy`, `node_view.dfy`).
  - Node views, and the edge test that grows the canvas while a node is dragged.
  - Canvas growth.
  - Deleting a subtree together with exactly its views.
  - Renaming and adding nodes.
  - Redrawing a stored tree depth first.
  - The save that follows every edit.
- **Stored maps** (`file_storage.dfy`, `map_file.dfy`, `search_view_controller.dfy`).
  - The document directory is a class holding a map from file name to contents and dates.
  - Listing by suffix, newest first.
  - Import; the map-file coder.
  - Search by name substring.
  - Deleting and locking a map.
- **Small controls** (`alert_view.dfy`, `file_collection_view_cell.dfy`). The validator
  for a new map's name, and a grid cell's lock toggle and buttons.

`common.dfy` holds shared values: options, status reports, geometry, and the
Foundation string tests the code relies on.

Where the code changes objects in place (the tree, views, the canvas, the directory,
the cells, the prompt), the model is a class whose methods state the new state. Pure
decisions and pipelines (search, listing, sorting, the edge test, the coder) are
functions. Each has lemmas that relate it to its partner: pre-order, the sort order,
the inverse coder, or the filter.

Two behaviours of the code worth knowing:
- `getRecentFiles` returns every matching name, with no limit
  (MindMap/Services/Storage/FileStorage.swift:55-66).
- An empty search finds nothing, because Foundation's `contains` finds the empty string
  nowhere (MindMap/Controller/SearchViewController.swift:50).

## Model

| member | source | states |
|---|---|---|
| NodeTree.PreOrder | MindMap/View/MapScrollView.swift:261-262 | `forEachDepthFirst` visits the node first, and then only nodes of the document below it |
| NodeTree.Search | MindMap/Model/Node.swift:37-47 | `search(id:)` finds the id exactly when it lies in the subtree's pre-order, and then returns that node |
| NodeTree.SearchFrom | MindMap/Model/Node.swift:41-46 | the child loop of `search` finds the id exactly when it lies in the pre-order of the children from index i on |
| NodeTree.InPreOrderFrom | MindMap/Model/Node.swift:41-45 | a node is visited from child i on exactly when it lies in the subtree of one of those children |
| NodeTree.Description | MindMap/Model/Node.swift:19-25 | `description` starts with the node's name, and is the name alone exactly when the node has no children |
| NodeTree.DescriptionOfParent | MindMap/Model/Node.swift:19-25 | a node with children is described as its name, " {", its children's descriptions in order joined by ", " (`Join`, `joined(separator:)`), and "} " |
| NodeTree.ChildInPreOrder | MindMap/Model/Node.swift:41-45 | the children of a visited node are visited too |
| NodeTree.ParentInPreOrder | MindMap/Model/Node.swift:16-17 | in a well-formed tree, every visited node except the start has a parent, and that parent is visited |
| NodeTree.Reachable | MindMap/Model/Node.swift:37-47 | every node of a well-formed document lies in the root's pre-order |
| NodeTree.SearchFromRoot | MindMap/Model/Node.swift:37-47 | searching from the root finds exactly the ids of the document's nodes |
| NodeTree.DepthOfChild | MindMap/Model/Node.swift:66-70 | an attached child is exactly one parent hop further from the root than its parent |
| NodeTree.SameShapePreOrder | MindMap/View/MapScrollView.swift:169 | moving nodes does not change the depth-first order |
| NodeTree.PreOrderDistinct | MindMap/Model/Node.swift:32-35 | because `add(child:)` only attaches new nodes, the depth-first walk of a document visits each node of the subtree once |
| NodeTree.DetachedKeys | MindMap/Model/Node.swift:49-54 | after detaching, the remaining nodes are exactly those outside the removed subtree |
| NodeTree.DetachedWellFormed | MindMap/Model/Node.swift:49-54 | detaching a non-root node keeps the tree well formed |
| NodeTree.Tree.constructor | MindMap/Model/Node.swift:27-30 | a new document is a single root with the given name, no parent, no children |
| NodeTree.Tree.Add | MindMap/Model/Node.swift:32-35 | `add(child:)` appends the child at the end of the parent's children, keeps the earlier children, sets the child's parent link, and keeps the tree valid |
| NodeTree.AttachedWellFormed | MindMap/Model/Node.swift:32-35 | attaching a node that is not yet in the document under any node keeps the tree well formed, with no child listed twice |
| NodeTree.Tree.SearchFrom | MindMap/Model/Node.swift:37-47 | a hit is the node with the searched id; there is no hit exactly when that id is not in the subtree |
| NodeTree.Tree.Remove | MindMap/Model/Node.swift:49-61 | an absent node gives NotFound and the root gives RootRefused, both changing nothing; otherwise the node leaves its parent's children (other siblings stay in order) and its whole subtree leaves the document, which stays valid |
| NodeTree.Tree.DepthOfNode | MindMap/Model/Node.swift:63-73 | `depthOfNode` is the number of parent links up to the root for a node of the subtree, and 0 for an absent id |
| NodeTree.Tree.Rename | MindMap/View/MapScrollView.swift:283-285 | only the named node's name changes |
| NodeTree.Tree.SetCenterPosition | MindMap/View/MapScrollView.swift:323 | only the node's centre position changes |
| NodeViews.NeedsExpand | MindMap/View/NodeView.swift:148-166 | `.right` iff width - x <= 100, `.left` iff x <= 100, `.bottom` iff height - y <= 100, `.top` iff y <= 100; always in the order right, left, bottom, top; nothing without a superview |
| NodeViews.InteriorNeedsNothing | MindMap/View/NodeView.swift:150-164 | a location more than 100 from every edge asks for no growth |
| NodeViews.InitialFrame | MindMap/View/NodeView.swift:52-54 | a new view starts as a 120 by 120 square centred on the position |
| NodeViews.UpdatedFrame | MindMap/View/NodeView.swift:101-111 | after `update()` the width is at least `minWidth` and fits the text plus padding, and `center.x` and the top edge are kept |
| NodeViews.CommittedText | MindMap/View/NodeView.swift:218-222 | an empty text becomes "Type your idea here..."; the committed text is never empty |
| NodeViews.NodeView.constructor | MindMap/View/NodeView.swift:52-87 | the view shows the node and its name, in the square around the position resized by `update()` |
| NodeViews.NodeView.Update | MindMap/View/NodeView.swift:101-111 | the frame becomes the resized frame for the current text |
| NodeViews.NodeView.TextViewDidEndEditing | MindMap/View/NodeView.swift:218-225 | the text handed to `didEditText` is the committed, non-empty text, and the frame is resized for it |
| MapFiles.Snapshot | MindMap/View/MapScrollView.swift:360 | the stored tree has the node's name and position, and one child value per child; the id is not stored |
| MapFiles.SnapshotLabels | MindMap/View/MapScrollView.swift:360 | the stored tree records the names and positions of the document's nodes in depth-first order |
| MapFiles.PngData | MindMap/Model/MapFile.swift:39 | the bytes `pngData()` gives for an image are read back by `UIImage(data:)` as that image |
| MapFiles.ImageFrom | MindMap/Model/MapFile.swift:27 | `UIImage(data:)` gives an image exactly for image bytes |
| MapFiles.Decode | MindMap/Model/MapFile.swift:20-31 | decoding fails unless the bytes are a map object whose image bytes are an image; otherwise the four fields are read back |
| MapFiles.DecodeEncode | MindMap/Model/MapFile.swift:20-40 | every map the app writes decodes to the same map: tree shape, names, positions, canvas size, state and image (node ids are not stored) |
| MapFiles.EncodeDecode | MindMap/Model/MapFile.swift:20-40 | whatever decodes as a map is what encoding that map writes |
| Storage.SortDate | MindMap/Services/Storage/FileStorage.swift:59 | an entry without a modification date counts as `Date.distantPast` |
| Storage.Matching | MindMap/Services/Storage/FileStorage.swift:46-49 | keeps exactly the non-hidden entries whose name ends with the suffix |
| Storage.MatchingAppend | MindMap/Services/Storage/FileStorage.swift:47-49 | the filter keeps enumeration order |
| Storage.AllFiles | MindMap/Services/Storage/FileStorage.swift:44-53 | `getAllFiles` returns exactly the listed non-hidden names ending with the suffix, and nothing when the listing fails |
| Storage.Insert | MindMap/Services/Storage/FileStorage.swift:61 | inserting into a newest-first sequence keeps it newest first and adds exactly that entry |
| Storage.NamesInsert | MindMap/Services/Storage/FileStorage.swift:61-62 | inserting an entry adds exactly its name to the names |
| Storage.ByDate | MindMap/Services/Storage/FileStorage.swift:61 | the sorted entries are newest first and a permutation of the input |
| Storage.NamesByDate | MindMap/Services/Storage/FileStorage.swift:61-62 | sorting permutes the names |
| Storage.RecentFiles | MindMap/Services/Storage/FileStorage.swift:55-66 | `getRecentFiles` is a permutation of `getAllFiles` (nothing dropped), ordered by non-increasing date; empty when the listing fails |
| Storage.UndatedLast | MindMap/Services/Storage/FileStorage.swift:59-61 | an undated entry comes after every entry dated after `distantPast` |
| Storage.FileStorage.GetFile | MindMap/Services/Storage/FileStorage.swift:21-24 | `getFile` succeeds exactly for a stored name and returns its contents |
| Storage.FileStorage.WriteFile | MindMap/Services/Storage/FileStorage.swift:26-29 | after a write, reading the path gives the data, and no other file changes; only names that are not plain file names fail |
| Storage.FileStorage.DeleteFile | MindMap/Services/Storage/FileStorage.swift:31-34 | deletes only the path; fails exactly when there is no such file |
| Storage.FileStorage.CopyFile | MindMap/Services/Storage/FileStorage.swift:36-42 | imported bytes that decode are stored unchanged under `<root name>.mmd`, stamped with the current date, and the decoded map is returned; otherwise nothing is written |
| FileCells.Toggled | MindMap/View/HomePageCollectionViewCell/FileCollectionViewCell.swift:59 | the lock button makes `regular` locked and anything else regular |
| FileCells.ToggledTwice | MindMap/View/HomePageCollectionViewCell/FileCollectionViewCell.swift:59 | toggling twice restores the state |
| FileCells.LockTitle | MindMap/View/HomePageCollectionViewCell/FileCollectionViewCell.swift:42 | "Lock map" when regular, "Unlock map" when locked |
| FileCells.Preview | MindMap/View/HomePageCollectionViewCell/FileCollectionViewCell.swift:41 | the map's image when regular, the folder icon when locked |
| FileCells.FileCollectionViewCell.ConfigureUI | MindMap/View/HomePageCollectionViewCell/FileCollectionViewCell.swift:26-43 | sets name and state, hides the edit panel, hides the padlock exactly when regular, and picks the preview and lock title |
| FileCells.FileCollectionViewCell.EditDidTap | MindMap/View/HomePageCollectionViewCell/FileCollectionViewCell.swift:45-49 | flips the edit panel and changes nothing else on the cell |
| FileCells.FileCollectionViewCell.DeleteDidTap | MindMap/View/HomePageCollectionViewCell/FileCollectionViewCell.swift:51-56 | requests deletion of `mapName` only when it is set, and then flips the panel; nothing else on the cell changes |
| FileCells.FileCollectionViewCell.LockDidTap | MindMap/View/HomePageCollectionViewCell/FileCollectionViewCell.swift:58-64 | toggles the state, then hands the new state and `mapName` to the delegate only when the name is set, and flips the panel; the lock title, the preview and the padlock keep showing the old state |
| MapScroll.Shifted | MindMap/View/MapScrollView.swift:229-251 | growing at the top moves a view down by 25, and at the left moves it right by 25; the other edges leave it, and the size never changes |
| MapScroll.ExpandedSize | MindMap/View/MapScrollView.swift:224-251 | after any sequence of requests, the width grew by 50 per horizontal request and the height by 50 per vertical one |
| MapScroll.ExpandedNeverShrinks | MindMap/View/MapScrollView.swift:224-251 | the canvas never gets narrower or shorter as more requests arrive |
| MapScroll.Without | MindMap/View/MapScrollView.swift:264-268 | keeps exactly the views not removed, without repeats, and everything when nothing is removed |
| MapScroll.WithoutAppend | MindMap/View/MapScrollView.swift:264-268 | filtering works view by view over a concatenation, so the kept views stay in order |
| MapScroll.FlatWithExtension | MindMap/View/MapScrollView.swift:355 | a map's file names can be written exactly when its name holds no '/' |
| MapScroll.SaveOutcomeEffects | MindMap/View/MapScrollView.swift:330-365 | a save writes the preview, then (with a state) a map file that reads back as the current map; a failed write changes nothing; no other file changes |
| MapScroll.DrewAppend | MindMap/View/MapScrollView.swift:168-172 | drawing one group of nodes and then another draws their concatenation |
| MapScroll.DrewCons | MindMap/View/MapScrollView.swift:169-170 | drawing a node's view and then its descendants draws the subtree |
| MapScroll.MapScrollView.constructor | MindMap/View/MapScrollView.swift:31-39 | a canvas starts without document or views |
| MapScroll.MapScrollView.ConfigureUI | MindMap/View/MapScrollView.swift:121-135 | a 2000 by 2000 canvas in the regular state, with the root's view at its centre |
| MapScroll.MapScrollView.AddRootNode | MindMap/View/MapScrollView.swift:177-204 | without a map file, a new one-node tree positioned at the view's centre; with one, the existing root moves to the location; the root's view is the only view and the root is the last node |
| MapScroll.MapScrollView.DrawRoot | MindMap/View/MapScrollView.swift:184-197 | the root becomes the last node and its view, around the location, joins the empty canvas |
| MapScroll.MapScrollView.ExpandView | MindMap/View/MapScrollView.swift:224-253 | the canvas grows by 50 in one dimension, and every view is shifted as `Shifted` says |
| MapScroll.MapScrollView.SaveMap | MindMap/View/MapScrollView.swift:330-365 | the files and report are those of `SaveOutcome` for the current document; the map file is recorded once the preview is written and the state is set, even when writing the map file then fails |
| MapScroll.MapScrollView.RemoveViews | MindMap/View/MapScrollView.swift:264-268 | exactly the views showing one of the ids leave the canvas, and the rest keep their order (the result is `Without`, which keeps order by `WithoutAppend`) |
| MapScroll.MapScrollView.Delete | MindMap/View/MapScrollView.swift:256-279 | the root's view changes nothing and returns the map file for the deletion alert; any other view removes its subtree and exactly the views of the subtree's nodes; then saves, with the files, report and recorded map file of `SaveMap` (the views are taken off before the save; see "## Left out") |
| MapScroll.MapScrollView.RemoveSubtree | MindMap/View/MapScrollView.swift:261-268 | the subtree leaves the document and exactly its views leave the canvas |
| MapScroll.MapScrollView.DidEditText | MindMap/View/MapScrollView.swift:281-287 | renames exactly the node the view shows, and no other node changes; then saves as `SaveMap` does; without a document nothing changes |
| MapScroll.MapScrollView.DrawNode | MindMap/View/MapScrollView.swift:305-327 | a new view for the node joins the canvas, the node's position becomes the view's centre, and the map is saved as `SaveMap` does |
| MapScroll.MapScrollView.PlaceNode | MindMap/View/MapScrollView.swift:305-323 | a new view for the node, around the location and showing its name, joins the canvas and the list of node views, and the node's position becomes the view's centre; nothing else in the document changes |
| MapScroll.MapScrollView.AddChildNode | MindMap/View/MapScrollView.swift:289-297 | appends one new child named "" to the parent, makes it the last node, draws it at the location with one new view, and saves as `SaveMap` does |
| MapScroll.MapScrollView.AddNodeExternally | MindMap/View/MapScrollView.swift:299-303 | the node becomes the last node and is drawn at the location, and the map is saved as `SaveMap` does |
| MapScroll.MapScrollView.AddChildUI | MindMap/View/MapScrollView.swift:166-175 | the new views show the nodes below the node in depth-first order (each once, by `PreOrderDistinct`), after the existing views; the last one drawn becomes the last node; only positions change |
| MapScroll.MapScrollView.DrawChild | MindMap/View/MapScrollView.swift:168-172 | one turn of the child loop draws that child's subtree after what was drawn before |
| MapScroll.MapScrollView.AddSubtree | MindMap/View/MapScrollView.swift:169-170 | a child is drawn at its stored position (the canvas centre without one), then everything below it |
| Search.Filter | MindMap/Controller/SearchViewController.swift:50 | keeps exactly the names that contain the search text |
| Search.FilterAppend | MindMap/Controller/SearchViewController.swift:50 | the filter keeps the listing order |
| Search.Lookup | MindMap/Controller/SearchViewController.swift:51-62 | a file is skipped exactly when it cannot be read or decoded or its preview is missing; otherwise the stored map is shown with its preview, or with the folder icon when the preview is not an image |
| Search.ResultsAppend | MindMap/Controller/SearchViewController.swift:50-63 | results come in file order, and one file's failure does not affect the others |
| Search.ResultsFromFiles | MindMap/Controller/SearchViewController.swift:50-63 | every result is what some searched file reads as |
| Search.FilesInResults | MindMap/Controller/SearchViewController.swift:50-63 | every searched file that reads as a map is among the results |
| Search.SearchedMaps | MindMap/Controller/SearchViewController.swift:47-65 | a map is found exactly when a listed `.mmd` name containing the text reads as it |
| Search.PreviewIsNotMap | MindMap/Controller/SearchViewController.swift:130-131 | a map's preview and its map file are different files |
| Search.SearchViewController.FetchSearchedDocuments | MindMap/Controller/SearchViewController.swift:47-65 | the loop returns the search results for the listing (see `SearchedMaps`) |
| Search.SearchViewController.ReloadData | MindMap/Controller/SearchViewController.swift:38-45 | with search text, shows its results and hides "no results" exactly when there are some |
| Search.SearchViewController.DeleteMap | MindMap/Controller/SearchViewController.swift:128-137 | deletes `name.png` and then `name.mmd`; a failed first delete leaves every file; it succeeds exactly when both exist; it reloads only on success and with search text, and otherwise leaves the results; the error text is "Wasn't able to delete your map!" |
| Search.SearchViewController.LockMap | MindMap/Controller/SearchViewController.swift:139-164 | after authentication, rewrites `name.mmd` with only `state` changed; without authentication, or with an unreadable file, nothing is written and "Wasn't able to lock your map!" is reported |
| Alerts.NameProblem | MindMap/View/AlertView.swift:125-137 | a missing, empty or whitespace-only name gives "Map name shouldn't be empty"; otherwise an existing `.mmd` gives "This map already exist"; otherwise the name is accepted |
| Alerts.SpacesAndTabsRefused | MindMap/View/AlertView.swift:125 | a name made only of spaces and tabs is refused as empty |
| Alerts.LineBreakNotBlank | MindMap/View/AlertView.swift:125 | a name holding a line break is not refused as empty, because `.whitespaces` excludes newlines |
| Alerts.AlertView.MapWithThisNameExist | MindMap/View/AlertView.swift:140-147 | true exactly when reading `name.mmd` succeeds |
| Alerts.AlertView.AddButtonDidTap | MindMap/View/AlertView.swift:122-138 | an accepted name clears the text and the error label and is handed on untrimmed; a refused name keeps the text and shows why |
| Alerts.AlertView.CloseButtonDidTap | MindMap/View/AlertView.swift:150-153 | clears the text |
| Common.Contains | MindMap/Controller/SearchViewController.swift:50 | a non-empty text occurs in the name at some index |
| Common.RemoveAll | MindMap/Model/Node.swift:52-54 | `removeAll(where:)` drops every copy of the element and keeps everything else; a list without repeats stays without repeats |
| Common.RemoveAllAppend | MindMap/Model/Node.swift:52-54 | removal works element by element, so the other children keep their order and number |

## Left out

- Rendering: splines and their colours by depth, shadows, zoom, gestures, animations, constraints and the text views' own layout are not modelled.
- The rendering of the canvas that a save stores is an input (`screen`).
- The text sizes UIKit measures are an input (`Measure`).
- `addChildUI` places a node without a position at `containerView.center`. The model uses the middle of the canvas size, which assumes the canvas sits at the origin of its scroll view.
- Files and the JSON and image coders are modelled structurally.
  - A file's contents are what the decoders make of them (`Data`).
  - `jpegData`/`pngData` both become one image-bytes form.
  - `Node`'s own `Codable` conformance is not part of this model; `Snapshot` stands for the stored tree.
  - A stored node holds its name, position and children but no id. Decoding gives every node a fresh UUID; the model does not represent those ids, because `NodeValue` has none. The in-memory `mapFile`, which in the app holds the live root node with its ids, is the same id-less value. In the app, `mapFile.rootNode` therefore follows every later edit. In the model, `mapFile` is the snapshot taken by the last save that recorded one. The two differ after an edit whose save records nothing, for example when the root's name contains '/'.
- The directory enumeration (names, order, dates, failure) is an input of `AllFiles`, `RecentFiles` and the search. It is not tied to the stored files, or to the dates `FileStorage.modified` records.
- MapScroll.MapScrollView.SaveMap: does not state the modification dates the writes record.
- Storage.FileStorage.WriteFile: the only write failure modelled is a name that is not a plain file name. Full disks and permissions are not modelled.
- Storage.ByDate: `sorted(by:)` is not stable. The model fixes one order for entries with equal dates, so it does not say which of them comes first.
- The owner's biometric authentication is a boolean input of `LockMap`. The main-queue hop before reloading, and the prompt when a locked map is opened, are not modelled.
- Names are compared as sequences of Unicode scalars (`HasSuffix`, `Contains`, `==` on names). Swift compares `String`s by canonical equivalence, so for example a search for "\u{E9}" finds a map named "Cafe\u{301}" in the app but not in the model. Normalisation is not modelled.
- Error alerts (`ErrorReporting`) are not shown. The methods return the message instead.
- Delegate calls (`addNode`, `closeAlert`, `deleteMap`, `lockMap`, `presentAlert`, `didEditText`, `expandView`) are returned values or left to the caller.
- MapScroll.MapScrollView.AddChildUI: states the views drawn, their order, the last node and the unchanged shape of the tree. It does not state the saves made after each node, or the new positions.
- MapScroll.MapScrollView.Delete: in the app, `NodeView.delete()` takes the views and their splines off the canvas on a later turn of the main queue (MindMap/View/NodeView.swift:94-99), after `saveMap()` has already rendered the preview, so the stored preview still shows the deleted subtree. The model takes the views off before the save. The rendered preview is an input (`screen`), so the model does not capture this stale preview.
- MapScroll.MapScrollView.Delete: requires the view to be on the canvas of a document. A view without a node, or a canvas without a document, is not modelled.
- MapScroll.MapScrollView.AddChildNode: requires the parent's view to be on the canvas of a document, so a stray view is not modelled.
- `NodeView.node` is set once, by the initialiser, as in the app.
- The `saveMap()` that `addRootNode` makes without any document has nothing to save.
- `configureUI(viewSize:mapFile:)`, the home screen, the scene delegate and the earlier `MapViewController` prototype are not part of this model.
