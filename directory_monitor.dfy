/**
 * The category index of DirectoryMonitor.py: the table of images, the category list kept in
 * pinned-then-sorted order, the debounced save timer and the two configuration files on disk.
 */
module Monitor {
  import opened Options
  import opened Lists
  import opened Images
  import opened Catalog
  import opened Paths

  /** The delay, in seconds, addImageCategory arms the save timer with. */
  const SaveTime: nat := 5

  /** A threading.Timer started by _setSaveTimer: its identity and its delay. */
  datatype Timer = Timer(id: nat, delay: nat)

  class DirectoryMonitor {
    const rootDir: string
    var categoryList: seq<string>
    var files: Files
    var saveTimer: Option<Timer>
    /** The timers of the timer facility that were started and have neither been cancelled nor elapsed. */
    var pendingTimers: set<nat>
    var timersStarted: nat
    /** config.json under the root, as the decoded map of its "images" field; None when there is no file. */
    var configFile: Option<Snapshot>
    /** config-2.json, the previous generation. */
    var backupFile: Option<Snapshot>

    /** The category list is in the order _sortCategoryList leaves. */
    ghost predicate ListValid()
      reads this`categoryList
    {
      WellFormed(categoryList)
    }

    /** Every image sits under its own relative path below the root. */
    ghost predicate TableValid()
      reads this`files
    {
      Indexed(rootDir, files)
    }

    /** At most the one timer saveTimer refers to is pending, and it was started by this monitor. */
    ghost predicate TimerValid()
      reads this`saveTimer, this`pendingTimers, this`timersStarted
    {
      && pendingTimers == (if saveTimer.Some? then {saveTimer.value.id} else {})
      && (forall t :: t in pendingTimers ==> t < timersStarted)
    }

    /** What every operation keeps, whatever the configuration file held. */
    ghost predicate Valid()
      reads this
    {
      ListValid() && TableValid() && TimerValid()
    }

    /**
     * The index's intended invariant: no image lists a reserved name or a name twice, and every
     * name an image lists is in the category list. A load from a clean file establishes it and
     * every operation keeps it.
     */
    ghost predicate Consistent()
      reads this`files, this`categoryList
    {
      TagsClean(files) && TagsListed(files, Elements(categoryList))
    }

    /** __init__: the reserved pair, an empty table, no timer, then _load. */
    constructor (dir: string, config: Option<Snapshot>, backup: Option<Snapshot>)
      ensures Valid()
      ensures rootDir == dir && configFile == config && backupFile == backup
      ensures saveTimer == None && timersStarted == 0
      ensures files == if config.Some? then Restored(dir, config.value) else map[]
      ensures Elements(categoryList) == Reserved + if config.Some? then SnapshotTags(config.value) else {}
      ensures (config.None? || CleanSnapshot(config.value)) ==> Consistent()
    {
      rootDir := dir;
      categoryList := [Uncategorised, All];
      files := map[];
      saveTimer := None;
      pendingTimers := {};
      timersStarted := 0;
      configFile := config;
      backupFile := backup;
      new;
      assert categoryList[2..] == [];
      Load();
      if config.Some? {
        RestoredInvariants(dir, config.value);
        assert map[] + Restored(dir, config.value) == Restored(dir, config.value);
      }
    }

    /** getCategories: the category list, reserved pair first and the rest ascending. */
    function GetCategories(): (list: seq<string>)
      reads this
      requires Valid()
      ensures WellFormed(list)
      ensures Elements(list) == Elements(categoryList)
    {
      categoryList
    }

    /** getCategory: the images the view of the given name shows. */
    method GetCategory(category: string) returns (images: set<Image>)
      ensures images == Members(files, category)
    {
      images := {};
      var todo := files.Keys;
      while todo != {}
        invariant todo <= files.Keys
        invariant images == set k | k in files && k !in todo && InCategory(files[k], category) :: files[k]
        decreases todo
      {
        var k :| k in todo;
        var image := files[k];
        if category == All {
          images := images + {image};
        } else if category == Uncategorised {
          if |image.categories| == 0 {
            images := images + {image};
          }
        } else {
          if category in image.categories {
            images := images + {image};
          }
        }
        todo := todo - {k};
      }
    }

    /** refresh: index every discovered file that is not a configuration file and not yet indexed. */
    method Refresh(discovered: seq<string>)
      requires Valid()
      modifies this`files
      ensures Valid()
      ensures files == Scanned(rootDir, old(files), Candidates(discovered))
      ensures old(Consistent()) ==> Consistent()
    {
      ScanAll(discovered);
      ScanKeepsInvariants(rootDir, old(files), Candidates(discovered), Elements(categoryList));
    }

    /** The loop of refresh over the discovered paths. */
    method ScanAll(discovered: seq<string>)
      modifies this`files
      ensures files == Scanned(rootDir, old(files), Candidates(discovered))
    {
      ghost var seen: set<string> := {};
      var i := 0;
      while i < |discovered|
        invariant 0 <= i <= |discovered|
        invariant seen == Candidates(discovered[..i])
        invariant files == Scanned(rootDir, old(files), seen)
      {
        var path := discovered[i];
        assert discovered[..i + 1] == discovered[..i] + [path];
        if !IsConfigFile(path) {
          ScanStep(rootDir, old(files), seen, path);
          if path !in files {
            files := files[path := NewImage(rootDir, path)];
          }
          seen := seen + {path};
        }
        i := i + 1;
      }
      assert discovered[..i] == discovered;
    }

    /** removeImage: drop the image's entry, if it has one. */
    method RemoveImage(image: Image)
      requires Valid()
      modifies this`files
      ensures Valid()
      ensures files == old(files) - {image.relPath}
      ensures old(Consistent()) ==> Consistent()
    {
      if image.relPath in files {
        files := files - {image.relPath};
      }
    }

    /**
     * addImageCategory: for a non-reserved name, tag the indexed image (registering the name in
     * the list) and arm the save timer, even when the image is not indexed.
     */
    method AddImageCategory(image: Image, category: string)
      requires Valid()
      modifies this`files, this`categoryList, this`saveTimer, this`pendingTimers, this`timersStarted
      ensures Valid()
      ensures category in Reserved ==>
        && files == old(files) && categoryList == old(categoryList)
        && saveTimer == old(saveTimer) && timersStarted == old(timersStarted)
      ensures category !in Reserved ==>
        && files ==
           (if image.relPath in old(files) then old(files)[image.relPath := Tagged(old(files)[image.relPath], category)]
            else old(files))
        && Elements(categoryList) ==
           (if image.relPath in old(files) then Elements(old(categoryList)) + {category} else Elements(old(categoryList)))
        && saveTimer == Some(Timer(old(timersStarted), SaveTime))
        && pendingTimers == {old(timersStarted)} && timersStarted == old(timersStarted) + 1
      ensures category in old(categoryList) ==> categoryList == old(categoryList)
      ensures old(Consistent()) ==> Consistent()
    {
      if category == All || category == Uncategorised {
        return;
      }
      if image.relPath in files {
        TagKeepsInvariants(rootDir, files, image.relPath, category, Elements(categoryList));
        RegisterCategory(category);
        var indexed := files[image.relPath];
        if category !in indexed.categories {
          files := files[image.relPath := indexed.(categories := indexed.categories + [category])];
        }
      }
      SetSaveTimer(SaveTime);
    }

    /** removeImageCategory: untag one indexed image; reserved names are ignored. The timer is not armed. */
    method RemoveImageCategory(image: Image, category: string)
      requires Valid()
      modifies this`files
      ensures Valid()
      ensures files ==
        if category in Reserved || image.relPath !in old(files) then old(files)
        else old(files)[image.relPath := Untagged(old(files)[image.relPath], category)]
      ensures old(Consistent()) ==> Consistent()
      ensures old(Consistent()) && image.relPath in files ==> category !in files[image.relPath].categories
    {
      if category == All || category == Uncategorised {
        return;
      }
      if image.relPath in files {
        UntagKeepsInvariants(rootDir, files, image.relPath, category, Elements(categoryList));
        var indexed := files[image.relPath];
        if category in indexed.categories {
          files := files[image.relPath := indexed.(categories := RemoveFirst(indexed.categories, category))];
        }
      }
    }

    /** removeCategory: untag every image and drop a listed, non-reserved name from the list. */
    method RemoveCategory(category: string)
      requires Valid()
      modifies this`files, this`categoryList
      ensures Valid()
      ensures category in Reserved || category !in old(categoryList) ==>
        files == old(files) && categoryList == old(categoryList)
      ensures category !in Reserved && category in old(categoryList) ==>
        && files == UntaggedAll(old(files), category)
        && Elements(categoryList) == Elements(old(categoryList)) - {category}
      ensures old(Consistent()) ==> Consistent() && forall k :: k in files ==> category !in files[k].categories
    {
      if category == All || category == Uncategorised {
        return;
      }
      if category in categoryList {
        RemoveListed(category);
      } else if Consistent() {
        UnlistedIsUnused(files, Elements(categoryList), category);
      }
    }

    /** The effective branch of removeCategory: untag every image, then drop the name from the list and sort it. */
    method RemoveListed(category: string)
      requires ListValid() && TableValid() && category !in Reserved && category in categoryList
      modifies this`files, this`categoryList
      ensures ListValid() && TableValid()
      ensures files == UntaggedAll(old(files), category)
      ensures Elements(categoryList) == Elements(old(categoryList)) - {category}
      ensures old(Consistent()) ==> Consistent() && forall k :: k in files ==> category !in files[k].categories
    {
      UntagAllKeepsInvariants(rootDir, files, category, Elements(categoryList));
      UntagAll(category);
      RemovedUnsorted(categoryList, category);
      categoryList := RemoveFirst(categoryList, category);
      SortCategoryList();
    }

    /** The loop of removeCategory: remove the name from every image that lists it. */
    method UntagAll(category: string)
      modifies this`files
      ensures files == UntaggedAll(old(files), category)
    {
      var todo := files.Keys;
      while todo != {}
        invariant todo <= files.Keys && files.Keys == old(files).Keys
        invariant forall k :: k in todo ==> files[k] == old(files)[k]
        invariant forall k :: k in files && k !in todo ==> files[k] == Untagged(old(files)[k], category)
        decreases todo
      {
        var k :| k in todo;
        var image := files[k];
        if category in image.categories {
          files := files[k := image.(categories := RemoveFirst(image.categories, category))];
        }
        todo := todo - {k};
      }
      assert files == UntaggedAll(old(files), category);
    }

    /**
     * renameCategory: rename a listed, non-reserved name to a new, non-reserved one that is not
     * listed yet, in every image and in the list; any other request changes nothing.
     */
    method RenameCategory(category: string, newName: string)
      requires Valid()
      modifies this`files, this`categoryList
      ensures Valid()
      ensures category in Reserved || newName in Reserved || newName in old(categoryList) || category !in old(categoryList) ==>
        files == old(files) && categoryList == old(categoryList)
      ensures category !in Reserved && newName !in Reserved && newName !in old(categoryList) && category in old(categoryList) ==>
        && files == RelabelledAll(old(files), category, newName)
        && Elements(categoryList) == Elements(old(categoryList)) - {category} + {newName}
      ensures old(Consistent()) ==> Consistent()
      ensures old(Consistent()) && category !in Reserved && newName !in Reserved && newName !in old(categoryList) ==>
        forall k :: k in files ==>
          && category !in files[k].categories
          && (newName in files[k].categories <==> category in old(files)[k].categories)
    {
      if category == All || category == Uncategorised {
        return;
      }
      if newName == All || newName == Uncategorised {
        return;
      }
      if newName in categoryList {
        return;
      }
      if category in categoryList {
        RenameListed(category, newName);
      } else if Consistent() {
        UnlistedIsUnused(files, Elements(categoryList), category);
        UnlistedIsUnused(files, Elements(categoryList), newName);
      }
    }

    /** The effective branch of renameCategory: relabel every image, then swap the name in the list and sort it. */
    method RenameListed(category: string, newName: string)
      requires Valid()
      requires category !in Reserved && newName !in Reserved && newName !in categoryList && category in categoryList
      modifies this`files, this`categoryList
      ensures Valid()
      ensures files == RelabelledAll(old(files), category, newName)
      ensures Elements(categoryList) == Elements(old(categoryList)) - {category} + {newName}
      ensures old(Consistent()) ==> Consistent()
      ensures old(Consistent()) ==>
        forall k :: k in files ==>
          && category !in files[k].categories
          && (newName in files[k].categories <==> category in old(files)[k].categories)
    {
      RelabelAllKeepsInvariants(rootDir, files, category, newName, Elements(categoryList));
      RelabelAll(category, newName);
      SwappedUnsorted(categoryList, category, newName);
      categoryList := RemoveFirst(categoryList, category) + [newName];
      SortCategoryList();
    }

    /** The loop of renameCategory: replace the name by the new one in every image that lists it. */
    method RelabelAll(category: string, newName: string)
      modifies this`files
      ensures files == RelabelledAll(old(files), category, newName)
    {
      var todo := files.Keys;
      while todo != {}
        invariant todo <= files.Keys && files.Keys == old(files).Keys
        invariant forall k :: k in todo ==> files[k] == old(files)[k]
        invariant forall k :: k in files && k !in todo ==> files[k] == Relabelled(old(files)[k], category, newName)
        decreases todo
      {
        var k :| k in todo;
        var image := files[k];
        if category in image.categories {
          var kept := RemoveFirst(image.categories, category);
          files := files[k := image.(categories := kept + [newName])];
        }
        todo := todo - {k};
      }
      assert files == RelabelledAll(old(files), category, newName);
    }

    /** save: cancel the pending timer, move config.json to config-2.json, write the snapshot. */
    method Save()
      requires Valid()
      modifies this`saveTimer, this`pendingTimers, this`configFile, this`backupFile
      ensures Valid()
      ensures saveTimer == None && pendingTimers == {}
      ensures backupFile == if old(configFile).Some? then old(configFile) else old(backupFile)
      ensures configFile == Some(SnapshotOf(files))
    {
      ClearSaveTimer();
      if configFile.Some? {
        backupFile := configFile;
      }
      var cfg := Snapshot();
      configFile := Some(cfg);
    }

    /** The loop of save that builds cfg['images']: each image's relative path to its categories. */
    method Snapshot() returns (cfg: Snapshot)
      requires TableValid()
      ensures cfg == SnapshotOf(files)
    {
      cfg := map[];
      var todo := files.Keys;
      while todo != {}
        invariant todo <= files.Keys
        invariant cfg.Keys == files.Keys - todo
        invariant forall k :: k in cfg ==> cfg[k] == files[k].categories
        decreases todo
      {
        var k :| k in todo;
        var image := files[k];
        assert image.relPath == k;
        cfg := cfg[image.relPath := image.categories];
        todo := todo - {k};
      }
      assert cfg == SnapshotOf(files);
    }

    /** _load: add every image of config.json with its categories, registering each new name. */
    method Load()
      requires Valid()
      modifies this`files, this`categoryList
      ensures Valid()
      ensures files == old(files) + if configFile.Some? then Restored(rootDir, configFile.value) else map[]
      ensures Elements(categoryList) ==
        Elements(old(categoryList)) + if configFile.Some? then SnapshotTags(configFile.value) else {}
    {
      if configFile.None? {
        assert old(files) + map[] == old(files);
      } else {
        LoadEntries(configFile.value);
      }
    }

    /** The loop of _load over the entries of cfg['images']. */
    method LoadEntries(cfg: Snapshot)
      requires ListValid() && TableValid()
      modifies this`files, this`categoryList
      ensures ListValid() && TableValid()
      ensures files == old(files) + Restored(rootDir, cfg)
      ensures Elements(categoryList) == Elements(old(categoryList)) + SnapshotTags(cfg)
    {
      var todo := cfg.Keys;
      ghost var done: set<string> := {};
      assert RestoredUnder(rootDir, cfg, {}) == map[];
      assert files + map[] == files;
      while todo != {}
        invariant todo + done == cfg.Keys && todo !! done
        invariant ListValid()
        invariant files == old(files) + RestoredUnder(rootDir, cfg, done)
        invariant Elements(categoryList) == Elements(old(categoryList)) + TagsUnder(cfg, done)
        decreases todo
      {
        var path :| path in todo;
        LoadImage(path, cfg[path]);
        RestoredUnderStep(rootDir, old(files), cfg, done, path);
        TagsUnderStep(cfg, done, path);
        todo := todo - {path};
        done := done + {path};
      }
      LoadedAll(rootDir, old(files), cfg, done);
    }

    /** One entry of _load: index the image under its path with the saved categories and list its names. */
    method LoadImage(path: string, categories: seq<string>)
      requires ListValid()
      modifies this`files, this`categoryList
      ensures ListValid()
      ensures files == old(files)[path := RestoredImage(rootDir, path, categories)]
      ensures Elements(categoryList) == Elements(old(categoryList)) + Elements(categories)
    {
      var image := RestoredImage(rootDir, path, categories);
      files := files[path := image];
      RegisterCategories(image.categories);
    }

    /** The inner loop of _load: list every name of one image that is not listed yet. */
    method RegisterCategories(categories: seq<string>)
      requires WellFormed(categoryList)
      modifies this`categoryList
      ensures WellFormed(categoryList)
      ensures Elements(categoryList) == Elements(old(categoryList)) + Elements(categories)
    {
      var i := 0;
      while i < |categories|
        invariant 0 <= i <= |categories|
        invariant WellFormed(categoryList)
        invariant Elements(categoryList) == Elements(old(categoryList)) + Elements(categories[..i])
      {
        RegisterCategory(categories[i]);
        assert categories[..i + 1] == categories[..i] + [categories[i]];
        ElementsAppend(categories[..i], categories[i]);
        i := i + 1;
      }
      assert categories[..i] == categories;
    }

    /** Append a name that is not listed yet and sort the list, as addImageCategory and _load do. */
    method RegisterCategory(category: string)
      requires WellFormed(categoryList)
      modifies this`categoryList
      ensures WellFormed(categoryList)
      ensures Elements(categoryList) == Elements(old(categoryList)) + {category}
      ensures category in old(categoryList) ==> categoryList == old(categoryList)
    {
      if category !in categoryList {
        AddedUnsorted(categoryList, category);
        categoryList := categoryList + [category];
        SortCategoryList();
      }
    }

    /** _setSaveTimer: cancel the pending timer and start a new one. */
    method SetSaveTimer(delay: nat)
      requires Valid()
      modifies this`saveTimer, this`pendingTimers, this`timersStarted
      ensures Valid()
      ensures saveTimer == Some(Timer(old(timersStarted), delay))
      ensures pendingTimers == {old(timersStarted)} && timersStarted == old(timersStarted) + 1
    {
      ClearSaveTimer();
      saveTimer := Some(Timer(timersStarted, delay));
      pendingTimers := pendingTimers + {timersStarted};
      timersStarted := timersStarted + 1;
    }

    /** _clearSaveTimer: cancel the pending timer, if any. */
    method ClearSaveTimer()
      requires Valid()
      modifies this`saveTimer, this`pendingTimers
      ensures Valid()
      ensures saveTimer == None && pendingTimers == {}
    {
      if saveTimer.Some? {
        pendingTimers := pendingTimers - {saveTimer.value.id};
        saveTimer := None;
      }
    }

    /** _saveTimerCallback: the pending timer t has elapsed; forget it and save. */
    method SaveTimerCallback(t: nat)
      requires Valid() && t in pendingTimers
      modifies this`saveTimer, this`pendingTimers, this`configFile, this`backupFile
      ensures Valid()
      ensures saveTimer == None && pendingTimers == {}
      ensures backupFile == if old(configFile).Some? then old(configFile) else old(backupFile)
      ensures configFile == Some(SnapshotOf(files))
    {
      pendingTimers := pendingTimers - {t};
      saveTimer := None;
      Save();
    }

    /** _sortCategoryList: pin the reserved pair in front of the sorted rest. */
    method SortCategoryList()
      requires Uncategorised in categoryList && All in categoryList
      modifies this`categoryList
      ensures NoDup(old(categoryList)) ==>
        WellFormed(categoryList) && Elements(categoryList) == Elements(old(categoryList))
    {
      if NoDup(categoryList) {
        NormaliseWellFormed(categoryList);
      }
      var rest := RemoveFirst(categoryList, Uncategorised);
      assert All in multiset(rest);
      rest := RemoveFirst(rest, All);
      categoryList := [Uncategorised, All] + Order.Sort(rest);
    }
  }
}
