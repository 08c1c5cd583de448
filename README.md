# ImageCategoriser: the category index and the thumbnail bookkeeping, in Dafny

ImageCategoriser is a desktop tool that indexes the image files below a root directory. The user tags
each image with categories and browses the images by category. This project models the parts of it
that hold state and proves what they promise:

- **The directory monitor** (`DirectoryMonitor.py`) is the category index. It maps each file's path
  relative to the root to an `Image` record, which holds a name, a relative path, an absolute path
  and a list of categories. It also keeps the category list. That list always starts with the two
  reserved views `"Uncategorised"` and `"All"`; the other names follow in ascending order, once each.
  The monitor re-scans the directory without losing anything, answers membership queries, tags and
  untags images, and removes and renames categories. It saves a snapshot that maps each relative
  path to its category list, rotating the previous file into a backup, and loads that snapshot at
  start-up. A save timer coalesces a burst of tag edits into one save: arming it again cancels the
  previous timer.
- **The prototype monitor** (`main.py`) is an earlier version of the same index. Its category
  collection is a set, it never sorts, it has no persistence and no timer, and its scan does not
  skip configuration files.
- **The thumbnail bookkeeping** (`ImageList.py`, and an identical earlier copy in the main window of
  `UserInterface.py`) consists of three parts:
  - rows keyed by relative path;
  - a cache of icon handles keyed by absolute path, which is never cleared;
  - a FIFO queue of icons still to be loaded.

  An icon worker takes the oldest job, loads its icon and sets it on the row, if the row still exists.
  The main window's `refreshUI` also keeps its category widgets in step with the monitor's categories.

Modules:

| module | contents |
|---|---|
| `Options` | an optional value |
| `Lists` | Python list behaviour: `list.index`, `list.remove`, repetition |
| `Order` | Python's `<` on strings and `list.sort` as an ascending permutation |
| `Paths` | `str.rfind`, `parts[-1]`, `PurePath.suffix`, and resolution as a join |
| `Images` | the `Image` record and the reserved names |
| `Catalog` | the behaviour of the index on values, shared by both monitors, and its properties |
| `Monitor` | the `DirectoryMonitor` class of `DirectoryMonitor.py` |
| `Prototype` | the `DirectoryMonitor` class of `main.py` |
| `Thumbnails` | rows, queue jobs and the cache invariant with its transition lemmas |
| `ImageLists` | the `ImageList` class |
| `UserInterface` | the `ImageCategoriserWindow` class |

Both monitors and both views are classes whose fields are the source's dictionaries, lists and
queue. Each method is proved against functions of the old state that are defined in `Catalog` or
`Thumbnails`. The lemmas about those functions carry the properties.

Two invariants are used:

- `Valid()` holds after every operation, whatever the files on disk contained. It says:
  - the category list is well formed;
  - every image sits under its own relative path;
  - at most the one timer `saveTimer` names is pending.
- `Consistent()` is the index's intended invariant. It says:
  - no image lists a reserved name or a name twice;
  - every name an image lists is in the category list.

  A load from a clean snapshot establishes `Consistent()`, and every operation keeps it.

How the environment is represented:

- The directory walk is an input: the sequence of relative paths it discovers.
- `config.json` and `config-2.json` are two fields, each holding `None` or the decoded `"images"` map.
- The timer facility is a set of pending timer ids. A timer elapsing is the explicit step
  `SaveTimerCallback(t)`.

Behaviours of the code that the model keeps as they are written:

- `save` writes every image, including images with no categories (DirectoryMonitor.py:45-46).
- `refresh` skips every file whose suffix is `.json` (DirectoryMonitor.py:64-65), not only the
  snapshot file.
- `addImageCategory` with a non-reserved name arms the save timer even when the image is not indexed
  (DirectoryMonitor.py:114).
- `removeImageCategory`, `removeCategory` and `renameCategory` never arm the timer.
- `_load` accepts any list of names in an entry. It does not reject a repeated or reserved name in an
  image's list (DirectoryMonitor.py:167-172), which is why `Consistent()` is stated on top of
  `Valid()`. Its treatment of the entries' keys is limited as described under "Left out".
- After a save and a fresh load, the category list comes back as the reserved pair plus the names in
  use. It equals the list before the save exactly when no listed name was unused: a category that no
  image lists is lost (`Catalog.ReloadedList`).

## Model

| member | source | states |
|---|---|---|
| Lists.RemoveFirst | DirectoryMonitor.py:123 | `list.remove(x)` on a list holding x drops its first occurrence and keeps the other elements in order, so one element and exactly one occurrence of x fewer |
| Lists.IndexOf | DirectoryMonitor.py:205 | the position `list.remove` works at holds x and is its first occurrence |
| Order.Sort | DirectoryMonitor.py:207 | `list.sort()` on strings yields an ascending permutation of its input |
| Order.StrictlySortedUnique | DirectoryMonitor.py:207 | two strictly ascending lists with the same names are equal, so the sorted order is unique |
| Order.LessTotal | DirectoryMonitor.py:207 | Python's string `<` orders any two different strings one way or the other |
| Order.LessTransitive | DirectoryMonitor.py:207 | Python's string `<` is transitive |
| Paths.LastIndexIsLast | DirectoryMonitor.py:61-64 | rfind gives -1 exactly when the character is absent, and otherwise its last occurrence |
| Paths.BaseNameIsFinalPart | DirectoryMonitor.py:61 | `parts[-1]` is the text after the last '/', and it contains no '/' |
| Paths.SuffixIsExtension | DirectoryMonitor.py:64 | the suffix is empty unless the name has an inner last dot; otherwise it is the tail from that dot, which holds no other dot |
| Images.NewImage | DirectoryMonitor.py:9-15 | defines the `Image` record as `Image.__init__` makes it (the same constructor is main.py:27-33): the final path part as its name, its relative path, the root joined with that path as its absolute path, and no categories; `Paths.BaseNameIsFinalPart` and `Catalog.ScannedAt` state what it is used for |
| Paths.ResolvePath | DirectoryMonitor.py:14 | defines `(Path(rootDir) / fromRootDir).resolve()` as the root, a '/' and the relative path, under the path assumptions listed under "Left out" |
| Paths.BaseName | DirectoryMonitor.py:61 | defines `parts[-1]`; its meaning is `Paths.BaseNameIsFinalPart` |
| Paths.Suffix | DirectoryMonitor.py:64 | defines `PurePath.suffix` by the last dot of the final part; its meaning is `Paths.SuffixIsExtension` |
| Paths.IsConfigFile | DirectoryMonitor.py:64-65 | defines the scan's skip test: a path whose final part has the suffix `.json` |
| Order.Less | DirectoryMonitor.py:207 | defines Python's `<` on `str` as code-point lexicographic order with a proper prefix first; `Order.LessTotal` and `Order.LessTransitive` state that it is a strict total order |
| Catalog.Normalise | DirectoryMonitor.py:203-209 | defines `_sortCategoryList`: remove the two reserved names, sort the rest, put "Uncategorised" and "All" in front; its properties are `Catalog.NormaliseSorts`, `Catalog.NormaliseWellFormed` and `Catalog.NormaliseIsTheSort` |
| Catalog.InCategory | DirectoryMonitor.py:83-90 | defines getCategory's test for one image: every image for "All", an image without categories for "Uncategorised", an image listing the name otherwise |
| Catalog.Members | DirectoryMonitor.py:79-92 | defines getCategory's result: the images of the table that pass that test; its meaning is stated by `Catalog.AllIsEveryImage`, `Catalog.UncategorisedIsUntagged` and `Catalog.NamedMembers` |
| Catalog.Scanned | DirectoryMonitor.py:68-72 | defines the scan: a new image for each candidate path not indexed yet; its properties are `Catalog.ScanAdditive` and `Catalog.ScanIdempotent` |
| Catalog.Candidates | DirectoryMonitor.py:52-65 | defines the paths the later monitor's walk offers: every discovered path that is not a `.json` file |
| Catalog.Tagged | DirectoryMonitor.py:111-112 | defines addImageCategory's edit of one image; its properties are `Catalog.TaggedFacts` |
| Catalog.Untagged | DirectoryMonitor.py:122-123 | defines removeImageCategory's edit of one image; its properties are `Catalog.UntaggedFacts` |
| Catalog.Relabelled | DirectoryMonitor.py:149-151 | defines renameCategory's edit of one image; its properties are `Catalog.RelabelledFacts` |
| Catalog.UntaggedAll | DirectoryMonitor.py:131-133 | defines removeCategory's edit of the table, image by image; its properties are `Catalog.UntagAllKeepsInvariants` |
| Catalog.RelabelledAll | DirectoryMonitor.py:148-151 | defines renameCategory's edit of the table, image by image; its properties are `Catalog.RelabelAllKeepsInvariants` |
| Catalog.SnapshotOf | DirectoryMonitor.py:44-46 | defines what save writes: each image's relative path mapped to its category list; its inverse is stated by `Catalog.SaveLoadRoundTrip` |
| Catalog.RestoredImage | DirectoryMonitor.py:164-167 | defines the image `_load` builds for one entry: a new image for its path with the saved categories |
| Catalog.Restored | DirectoryMonitor.py:163-168 | defines the table `_load` builds from a snapshot; `Catalog.SaveLoadRoundTrip` states that it inverts `Catalog.SnapshotOf` |
| Catalog.SnapshotTags | DirectoryMonitor.py:169-172 | defines the names `_load` lists: every name some entry of the snapshot holds |
| UserInterface.Stale | UserInterface.py:195-198 | defines the removal list of refreshUI's first loop: every shown name the backend lacks |
| Catalog.NormaliseSorts | DirectoryMonitor.py:203-209 | `_sortCategoryList` keeps the length and the multiset of names, puts "Uncategorised" then "All" first and sorts the rest |
| Catalog.NormaliseWellFormed | DirectoryMonitor.py:203-209 | on a list without repetition that holds both reserved names, the sort yields the reserved pair, each once, followed by the other names strictly ascending, with the same names |
| Catalog.NormaliseIsTheSort | DirectoryMonitor.py:203-209 | any well-formed list with the same names as the sorted list is that sorted list |
| Catalog.WellFormedUnique | DirectoryMonitor.py:203-209 | a well-formed category list is determined by its set of names |
| Catalog.WellFormedNoDup | DirectoryMonitor.py:203-209 | a well-formed list repeats no name |
| Catalog.AddName | DirectoryMonitor.py:107-109 | appending an unlisted name and sorting gives a well-formed list with exactly that name added |
| Catalog.RemoveName | DirectoryMonitor.py:134-135 | removing a listed non-reserved name and sorting gives a well-formed list without exactly that name |
| Catalog.SwapName | DirectoryMonitor.py:153-155 | swapping a listed name for an unlisted one and sorting gives a well-formed list with exactly that swap |
| Catalog.TaggedFacts | DirectoryMonitor.py:111-112 | tagging changes only the categories and adds exactly c; re-adding is a no-op; on a list without repetition, c then occurs exactly once |
| Catalog.UntaggedFacts | DirectoryMonitor.py:122-123 | untagging changes only the categories and removes the first c, keeping the other names in order; an image without c is unchanged; on a list without repetition c is gone and nothing else is |
| Catalog.RelabelledFacts | DirectoryMonitor.py:149-151 | relabelling changes only the categories, drops the first from keeping the other names in order, and appends to; an image without from is unchanged |
| Catalog.TagKeepsInvariants | DirectoryMonitor.py:106-112 | tagging an indexed image keeps the table indexed and clean, and its names listed once c is listed |
| Catalog.UntagKeepsInvariants | DirectoryMonitor.py:121-123 | untagging keeps every invariant; on clean tags the image no longer lists the name |
| Catalog.UnlistedIsUnused | DirectoryMonitor.py:144-147 | with every tag listed, a name the list lacks is on no image (why the unknown-name no-ops are sound) |
| Catalog.UntagAllKeepsInvariants | DirectoryMonitor.py:131-134 | removing a category from every image keeps the keys and invariants; with clean tags no image lists it afterwards |
| Catalog.RelabelAllKeepsInvariants | DirectoryMonitor.py:148-154 | renaming to an unlisted name keeps the tags clean, lists old - {from} + {to}, and an image has to exactly when it had from |
| Catalog.AllIsEveryImage | DirectoryMonitor.py:83-84 | the "All" view is every image of the table |
| Catalog.UncategorisedIsUntagged | DirectoryMonitor.py:85-87 | the "Uncategorised" view holds an image exactly when it is in the table with no categories |
| Catalog.NamedMembers | DirectoryMonitor.py:88-90 | a named view holds an image exactly when it is in the table and lists the name |
| Catalog.UnknownCategoryIsEmpty | DirectoryMonitor.py:88-90 | with every tag listed, the view of an unlisted non-reserved name is empty |
| Catalog.UncategorisedPartition | DirectoryMonitor.py:83-90 | with clean tags an image is in "Uncategorised" exactly when it is in no named view |
| Catalog.ScannedAt | DirectoryMonitor.py:71-72 | after a scan a key is present iff it was indexed or discovered; indexed entries are kept, new ones have no categories |
| Catalog.ScanAdditive | DirectoryMonitor.py:51-72 | the scan adds exactly the discovered keys and leaves every existing entry untouched |
| Catalog.ScanIdempotent | DirectoryMonitor.py:51-72 | scanning the same paths again changes nothing |
| Catalog.ScanKeepsInvariants | DirectoryMonitor.py:51-72 | the scan keeps the table indexed, clean and listed |
| Catalog.ScanStep | DirectoryMonitor.py:71-72 | one more path adds a new image for it exactly when it is neither indexed nor seen |
| Catalog.SaveLoadRoundTrip | DirectoryMonitor.py:163-168 | loading what save wrote gives back the same table, the same names in use, and a clean snapshot from clean tags |
| Catalog.ReloadedList | DirectoryMonitor.py:169-172 | the reloaded category list equals the saved one exactly when every listed name was in use |
| Catalog.RestoredInvariants | DirectoryMonitor.py:163-168 | the loaded table is indexed, its names are the snapshot's, and a clean snapshot gives clean tags |
| Catalog.RestoredUnderStep | DirectoryMonitor.py:168 | loading one more entry writes its image over the table built so far |
| Catalog.TagsUnderStep | DirectoryMonitor.py:169-172 | loading one more entry adds exactly the names it lists |
| Catalog.LoadedAll | DirectoryMonitor.py:163-172 | once every entry is read the table is the start table overwritten by the snapshot and is still indexed |
| Catalog.MergeKeepsInvariants | DirectoryMonitor.py:168 | writing a restored table over an existing one combines their invariants |
| Monitor.DirectoryMonitor.constructor | DirectoryMonitor.py:20-30 | a new monitor has no timer, Valid holds, and its table and names are exactly the loaded snapshot's; a clean snapshot gives Consistent |
| Monitor.DirectoryMonitor.GetCategories | DirectoryMonitor.py:75-76 | the returned list is well formed and holds exactly the listed names |
| Monitor.DirectoryMonitor.GetCategory | DirectoryMonitor.py:79-92 | the returned set is exactly the members of the view |
| Monitor.DirectoryMonitor.Refresh | DirectoryMonitor.py:51-72 | the table becomes the scan of the non-`.json` discovered paths; both invariants are kept |
| Monitor.DirectoryMonitor.ScanAll | DirectoryMonitor.py:52-72 | the loop over discovered paths computes exactly the scan of the candidates |
| Monitor.DirectoryMonitor.RemoveImage | DirectoryMonitor.py:95-97 | only the image's key is removed |
| Monitor.DirectoryMonitor.AddImageCategory | DirectoryMonitor.py:100-114 | a reserved name changes nothing and arms no timer; otherwise an indexed image is tagged and its name listed; an unindexed image changes nothing; in both cases a new timer replaces any pending one |
| Monitor.DirectoryMonitor.RemoveImageCategory | DirectoryMonitor.py:117-123 | only the one image is untagged; reserved names and unindexed images are no-ops; on clean tags the name is gone |
| Monitor.DirectoryMonitor.RemoveCategory | DirectoryMonitor.py:126-135 | reserved or unknown names are no-ops; otherwise every image is untagged and exactly that name leaves the well-formed list; afterwards no image lists it |
| Monitor.DirectoryMonitor.RemoveListed | DirectoryMonitor.py:131-135 | the effective branch of removeCategory: every image untagged and exactly that name gone from the well-formed list; with clean tags no image lists it afterwards |
| Monitor.DirectoryMonitor.UntagAll | DirectoryMonitor.py:131-133 | the loop untags every image |
| Monitor.DirectoryMonitor.RenameCategory | DirectoryMonitor.py:138-155 | the four guards are no-ops; otherwise every image is relabelled and the list loses the old name and gains the new one, still well formed; no image lists the old name and an image has the new name iff it had the old |
| Monitor.DirectoryMonitor.RenameListed | DirectoryMonitor.py:147-155 | the effective branch of the rename, with the same result |
| Monitor.DirectoryMonitor.RelabelAll | DirectoryMonitor.py:148-151 | the loop relabels every image |
| Monitor.DirectoryMonitor.Save | DirectoryMonitor.py:33-48 | no timer is pending afterwards, the old config file becomes the backup, and the new one is exactly the table's snapshot |
| Monitor.DirectoryMonitor.Snapshot | DirectoryMonitor.py:44-46 | the loop builds exactly each image's path mapped to its categories |
| Monitor.DirectoryMonitor.Load | DirectoryMonitor.py:158-174 | with no config file nothing changes; otherwise the restored images overwrite the table and the list gains exactly the snapshot's names, still well formed |
| Monitor.DirectoryMonitor.LoadEntries | DirectoryMonitor.py:163-172 | the loop over entries gives exactly the merged table and the listed names plus the snapshot's |
| Monitor.DirectoryMonitor.LoadImage | DirectoryMonitor.py:164-172 | one entry writes its image under its path and lists its names |
| Monitor.DirectoryMonitor.RegisterCategories | DirectoryMonitor.py:169-172 | the list gains exactly the image's names and stays well formed |
| Monitor.DirectoryMonitor.RegisterCategory | DirectoryMonitor.py:170-172 | the list gains exactly the name and stays well formed; a listed name leaves it unchanged |
| Monitor.DirectoryMonitor.SetSaveTimer | DirectoryMonitor.py:177-183 | the previous timer is cancelled and exactly one new timer is pending |
| Monitor.DirectoryMonitor.ClearSaveTimer | DirectoryMonitor.py:186-190 | afterwards no timer is pending |
| Monitor.DirectoryMonitor.SaveTimerCallback | DirectoryMonitor.py:193-196 | the elapsed timer is forgotten, nothing is pending, and the snapshot is saved |
| Monitor.DirectoryMonitor.SortCategoryList | DirectoryMonitor.py:203-209 | a list without repetition that holds both reserved names becomes well formed with the same names |
| Prototype.DirectoryMonitor.constructor | main.py:38-41 | a new monitor holds the reserved pair and no images |
| Prototype.DirectoryMonitor.Refresh | main.py:44-61 | the table becomes the scan of every discovered path; the invariants are kept |
| Prototype.DirectoryMonitor.ScanAll | main.py:45-61 | the loop computes exactly that scan |
| Prototype.DirectoryMonitor.GetCategories | main.py:64-65 | the set always holds both reserved names |
| Prototype.DirectoryMonitor.GetCategory | main.py:68-81 | the returned set is exactly the members of the view |
| Prototype.DirectoryMonitor.AddImageCategory | main.py:84-93 | reserved names and unindexed images are no-ops; otherwise the image is tagged without repetition and the name joins the set |
| Prototype.DirectoryMonitor.RemoveImageCategory | main.py:96-102 | only the one image is untagged; reserved names and unindexed images are no-ops |
| Prototype.DirectoryMonitor.RemoveCategory | main.py:105-113 | reserved or unknown names are no-ops; otherwise every image is untagged and the name leaves the set; the reserved pair stays |
| Prototype.DirectoryMonitor.UntagAll | main.py:110-112 | the loop untags every image |
| Prototype.DirectoryMonitor.RenameCategory | main.py:116-132 | the guards are no-ops; otherwise every image is relabelled and the set swaps the names; the reserved pair stays |
| Prototype.DirectoryMonitor.RelabelAll | main.py:126-129 | the loop relabels every image |
| Thumbnails.EnqueuedOnce | ImageList.py:61-66 | under the cache invariant no absolute path was ever queued twice |
| Thumbnails.CachedIsLoadedOrQueued | ImageList.py:101-111 | a cached icon is either loaded or waiting in the queue at its job's position |
| Thumbnails.EnqueueKeepsCache | ImageList.py:63-66 | caching and queueing a fresh icon for an uncached path keeps the cache invariant |
| Thumbnails.PopKeepsCache | ImageList.py:103-105 | taking the oldest job, in FIFO order, and loading its icon keeps the cache invariant |
| ImageLists.ImageList.constructor | ImageList.py:27-42 | a new list has no rows, no cache and an empty queue |
| ImageLists.ImageList.AddImage | ImageList.py:58-74 | a present key changes nothing; a cached path reuses its icon and queues nothing; an uncached one gets a fresh icon, cached and queued once; only the new key's row changes |
| ImageLists.ImageList.RemoveImage | ImageList.py:77-82 | only that key's row is removed |
| ImageLists.ImageList.ClearImages | ImageList.py:85-89 | every row goes; the cache and queue stay |
| ImageLists.ImageList.IconTaskStep | ImageList.py:101-113 | the head job is taken and its icon loaded, and only the row of its key, if still present, shows it |
| UserInterface.ImageCategoriserWindow.constructor | UserInterface.py:25-38 | a new window has no rows, categories or cache |
| UserInterface.ImageCategoriserWindow.AddImage | UserInterface.py:122-138 | as ImageList.AddImage |
| UserInterface.ImageCategoriserWindow.RemoveImage | UserInterface.py:141-146 | only that key's row is removed |
| UserInterface.ImageCategoriserWindow.ClearImages | UserInterface.py:149-153 | every row goes; the cache and queue stay |
| UserInterface.ImageCategoriserWindow.IconTaskStep | UserInterface.py:105-117 | the head job is taken FIFO and only a present row shows its icon |
| UserInterface.ImageCategoriserWindow.AddCategory | UserInterface.py:156-160 | the shown names gain exactly that name |
| UserInterface.ImageCategoriserWindow.RemoveCategory | UserInterface.py:163-166 | the shown names lose exactly that name |
| UserInterface.ImageCategoriserWindow.RefreshUI | UserInterface.py:186-212 | afterwards the shown category names are exactly the backend's and the rows are exactly the given images' paths, each row carrying one of them and showing the icon cached for its absolute path; cached icons stay, the cache gains exactly the rows' absolute paths, the history of jobs only grows, the queue is the old queue followed by the new jobs, and each new job is for a given image whose path was not cached before |
| UserInterface.ImageCategoriserWindow.SyncCategories | UserInterface.py:188-205 | the shown category names become exactly the backend's |
| UserInterface.ImageCategoriserWindow.StaleNames | UserInterface.py:191-198 | the removal list holds exactly the shown names the backend lacks |
| UserInterface.ImageCategoriserWindow.RemoveAll | UserInterface.py:199-201 | exactly the listed names are removed |
| UserInterface.ImageCategoriserWindow.AddAll | UserInterface.py:204-205 | exactly the backend's names are added |
| UserInterface.ImageCategoriserWindow.ShowImages | UserInterface.py:211-212 | on an empty view, the rows become exactly the given images' paths, each row carrying one of them and showing the icon cached for its absolute path; cached icons stay, the cache gains exactly the rows' absolute paths, the queue is the old queue followed by the new jobs of the history, and each new job is for a given image whose path was not cached before |
| UserInterface.ImageCategoriserWindow.ShowImage | UserInterface.py:211-212 | one pass adds at most the row of the image's relative path and keeps every other row, and keeps all of the above relations to the state the refresh started from |
| UserInterface.ShowCached | UserInterface.py:126-138 | adding a row for a cached absolute path keeps those relations: the row shows the cached icon and the cache and queue are unchanged |
| UserInterface.ShowUncached | UserInterface.py:126-138 | adding a row for an uncached absolute path keeps those relations: the fresh icon is cached, shown by the row, and its job is the one new entry in both the history and the queue |

## Left out

- File I/O and JSON are abstracted:
  - `os.walk` is an input sequence of relative paths;
  - `open`, `json.dump`, `json.load`, `os.path.isfile` and `os.replace` are the two fields holding
    the config file and its backup, each an optional map from relative path to category list.
- Path values are strings separated by '/'. `Path.resolve()` is a join of root and relative path, with
  no symbolic links or "..", and `relative_to` is the identity on the discovered relative paths.
- Threads, `threading.Lock` and `threading.Thread` are not modelled. The icon worker's loop body is
  one atomic step, and the lock is implicit.
- Wall-clock time of `threading.Timer`, and `time.sleep`, are not modelled. A timer is an id in the
  set of pending timers, and its firing is `SaveTimerCallback`.
- `print` output is left out.
- Qt widgets are left out: `QListWidget` insert/clear/removeItemWidget, `setSizeHint`, `setData`,
  `listWidget().update()`, menus, dialogs and events. With them go `MainWindow.py`, `CategoryList.py`,
  `Utils.py`, and the menu, context and event methods. `QIcon.addFile` is the icon's "loaded" flag.
- `subprocess.run` (opening a viewer) and `os.remove` are foreign OS calls. Their only index effect is
  `removeImage`.
- `Image` objects are values in the model. The source shares one object between the monitor and the
  view rows and edits its `categories` list in place; that aliasing is not modelled. `Image.rootDir`
  is the monitor's root and is not stored in the record.
- Iteration order over dicts and sets is not modelled. The loops take keys in an arbitrary order,
  and every contract holds for any order.
- `refreshUI`'s `getCategory(self.currentCategory)` call goes to a backend module that is not part of
  this model. Its result is the `shown` parameter, and the backend's category list is the `backend`
  parameter.
- The `IconTaskStep` methods model only a step with a job in the queue; `queue.get` blocks on an empty
  queue.
- Snapshot keys and the root are taken as they come. The model assumes every key of the snapshot is
  a normalised, non-empty relative path and the root an absolute one. The source's `Path(path)`
  (DirectoryMonitor.py:164) treats "./b.png" and "b.png", or "a//b" and "a/b", as one key; the model
  keeps such strings apart. Two exceptions are not modelled: the `IndexError` that `parts[-1]`
  (DirectoryMonitor.py:165) raises for the key "" or ".", and the `ValueError` that `relative_to`
  (DirectoryMonitor.py:58) raises when the root is given as a relative path, because the walk
  runs on the resolved root.
- SortCategoryList: states its result only for lists without repetition, which every list it is called
  on has. Its equality with `Catalog.Normalise` is the separate `Catalog.NormaliseIsTheSort`.
