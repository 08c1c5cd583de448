/**
 * The earlier main window: the same rows, icon cache and icon queue as the image list, and the
 * category list widget that refreshUI keeps in step with the directory monitor's categories.
 */
module UserInterface {
  import opened Lists
  import opened Images
  import opened Thumbnails

  /** A category list item, labelled with its name. */
  datatype CategoryItem = CategoryItem(text: string)

  /** The relative paths of the given images. */
  function PathsOf(shown: seq<Image>): set<string>
  {
    set image | image in shown :: image.relPath
  }

  /** The absolute paths of the images the rows show. */
  function AbsolutePathsOf(rows: map<string, Row>): set<string>
  {
    set k | k in rows :: rows[k].image.absolutePath
  }

  /** A row under a new key adds its image's absolute path. */
  lemma AbsolutePathsAdd(rows: map<string, Row>, k: string, row: Row)
    requires k !in rows
    ensures AbsolutePathsOf(rows[k := row]) == AbsolutePathsOf(rows) + {row.image.absolutePath}
  {
    forall a | a in AbsolutePathsOf(rows) ensures a in AbsolutePathsOf(rows[k := row]) {
      var j :| j in rows && rows[j].image.absolutePath == a;
      assert rows[k := row][j] == rows[j];
    }
    assert rows[k := row][k] == row;
  }

  /**
   * What showing rows keeps of the cache and queue a refresh started from (icons0, enqueued0,
   * queue0): cached icons stay, the cache gains exactly the absolute paths of the rows, every row
   * shows the icon cached for its image's absolute path, the history only grows, and the queue
   * gains exactly the jobs added to the history.
   */
  ghost predicate Extended(icons0: map<string, Icon>, enqueued0: seq<Job>, queue0: seq<Job>,
                           icons: map<string, Icon>, rows: map<string, Row>, enqueued: seq<Job>, queue: seq<Job>)
  {
    && (forall a :: a in icons0 ==> a in icons && icons[a] == icons0[a])
    && icons.Keys == icons0.Keys + AbsolutePathsOf(rows)
    && (forall k :: k in rows ==> rows[k].image.absolutePath in icons && rows[k].icon == icons[rows[k].image.absolutePath])
    && |enqueued0| <= |enqueued| && enqueued[..|enqueued0|] == enqueued0
    && queue == queue0 + enqueued[|enqueued0|..]
  }

  /** Every job added since enqueued0 is for one of the shown images, whose path was not cached in icons0. */
  ghost predicate JobsFrom(icons0: map<string, Icon>, enqueued0: seq<Job>, enqueued: seq<Job>, shown: seq<Image>)
  {
    forall j :: |enqueued0| <= j < |enqueued| ==>
      enqueued[j].image in shown && enqueued[j].image.absolutePath !in icons0
  }

  /** addImage of an image whose absolute path is cached: the new row borrows the cached icon. */
  lemma ShowCached(icons0: map<string, Icon>, enqueued0: seq<Job>, queue0: seq<Job>,
                   icons: map<string, Icon>, rows: map<string, Row>, enqueued: seq<Job>, queue: seq<Job>, image: Image)
    requires Extended(icons0, enqueued0, queue0, icons, rows, enqueued, queue)
    requires image.relPath !in rows && image.absolutePath in icons
    ensures Extended(icons0, enqueued0, queue0, icons,
                     rows[image.relPath := Row(icons[image.absolutePath], image.name, image)], enqueued, queue)
  {
    AbsolutePathsAdd(rows, image.relPath, Row(icons[image.absolutePath], image.name, image));
  }

  /** addImage of an image whose absolute path is not cached: a fresh icon is cached and queued. */
  lemma ShowUncached(icons0: map<string, Icon>, enqueued0: seq<Job>, queue0: seq<Job>,
                     icons: map<string, Icon>, rows: map<string, Row>, enqueued: seq<Job>, queue: seq<Job>,
                     image: Image, shown: seq<Image>)
    requires Extended(icons0, enqueued0, queue0, icons, rows, enqueued, queue)
    requires JobsFrom(icons0, enqueued0, enqueued, shown)
    requires image.relPath !in rows && image.absolutePath !in icons && image in shown
    ensures Extended(icons0, enqueued0, queue0, icons[image.absolutePath := |enqueued|],
                     rows[image.relPath := Row(|enqueued|, image.name, image)],
                     enqueued + [Job(image, |enqueued|)], queue + [Job(image, |enqueued|)])
    ensures JobsFrom(icons0, enqueued0, enqueued + [Job(image, |enqueued|)], shown)
  {
    var job := Job(image, |enqueued|);
    AbsolutePathsAdd(rows, image.relPath, Row(|enqueued|, image.name, image));
    assert (enqueued + [job])[..|enqueued0|] == enqueued[..|enqueued0|];
    assert (enqueued + [job])[|enqueued0|..] == enqueued[|enqueued0|..] + [job];
  }

  /** addImage leaves the rows as they were or adds one row, for the image, under its relative path. */
  lemma RowAdded(before: map<string, Row>, after: map<string, Row>, image: Image)
    requires image.relPath in before ==> after == before
    requires image.relPath !in before ==>
      && image.relPath in after && after[image.relPath].image == image
      && after == before[image.relPath := after[image.relPath]]
    ensures after.Keys == before.Keys + {image.relPath}
    ensures forall k :: k in after ==> (k in before && after[k] == before[k]) || after[k].image == image
  {
  }

  /** One more image adds its relative path. */
  lemma PathsOfAppend(shown: seq<Image>, image: Image)
    ensures PathsOf(shown + [image]) == PathsOf(shown) + {image.relPath}
  {
    assert image in shown + [image];
  }

  /** The removal list refreshUI builds: every shown name the backend no longer has. */
  function Stale(shown: set<string>, backend: seq<string>): set<string>
  {
    set c | c in shown && c !in backend
  }

  class ImageCategoriserWindow {
    var images: map<string, Row>
    var imageIcons: map<string, Icon>
    var iconQueue: seq<Job>
    var settled: set<Icon>
    var iconsCreated: nat
    ghost var enqueued: seq<Job>
    ghost var popped: nat
    /** categories: the list item shown for each category name. */
    var categories: map<string, CategoryItem>

    ghost predicate CategoriesValid()
      reads this`categories
    {
      forall c :: c in categories ==> categories[c] == CategoryItem(c)
    }

    ghost predicate Valid()
      reads this
    {
      && CacheValid(imageIcons, iconQueue, iconsCreated, enqueued, popped, settled)
      && RowsValid(images, iconsCreated)
      && CategoriesValid()
    }

    /** __init__: no rows, no categories, nothing cached; initUI's first refresh is a separate call. */
    constructor ()
      ensures Valid()
      ensures images == map[] && imageIcons == map[] && iconQueue == [] && settled == {}
      ensures iconsCreated == 0 && categories == map[]
    {
      images := map[];
      imageIcons := map[];
      iconQueue := [];
      settled := {};
      iconsCreated := 0;
      enqueued := [];
      popped := 0;
      categories := map[];
    }

    /**
     * addImage: a new row for an image whose relative path has none. A cached absolute path lends
     * its icon; otherwise a fresh icon is cached and queued with the image.
     */
    method AddImage(image: Image)
      requires Valid()
      modifies this`images, this`imageIcons, this`iconQueue, this`iconsCreated, this`enqueued
      ensures Valid()
      ensures image.relPath in old(images) ==>
        && images == old(images) && imageIcons == old(imageIcons) && iconQueue == old(iconQueue)
        && iconsCreated == old(iconsCreated) && enqueued == old(enqueued)
      ensures image.relPath !in old(images) && image.absolutePath in old(imageIcons) ==>
        && images == old(images)[image.relPath := Row(old(imageIcons)[image.absolutePath], image.name, image)]
        && imageIcons == old(imageIcons) && iconQueue == old(iconQueue)
        && iconsCreated == old(iconsCreated) && enqueued == old(enqueued)
      ensures image.relPath !in old(images) && image.absolutePath !in old(imageIcons) ==>
        && images == old(images)[image.relPath := Row(old(iconsCreated), image.name, image)]
        && imageIcons == old(imageIcons)[image.absolutePath := old(iconsCreated)]
        && iconQueue == old(iconQueue) + [Job(image, old(iconsCreated))]
        && iconsCreated == old(iconsCreated) + 1
        && enqueued == old(enqueued) + [Job(image, old(iconsCreated))]
    {
      if image.relPath !in images {
        var icon: Icon;
        if image.absolutePath in imageIcons {
          icon := imageIcons[image.absolutePath];
        } else {
          EnqueueKeepsCache(imageIcons, iconQueue, iconsCreated, enqueued, popped, settled, image);
          icon := iconsCreated;
          iconsCreated := iconsCreated + 1;
          iconQueue := iconQueue + [Job(image, icon)];
          enqueued := enqueued + [Job(image, icon)];
          imageIcons := imageIcons[image.absolutePath := icon];
        }
        var item := Row(icon, image.name, image);
        images := images[image.relPath := item];
      }
    }

    /** removeImage: drop the row of the image's relative path, if there is one. */
    method RemoveImage(image: Image)
      requires Valid()
      modifies this`images
      ensures Valid()
      ensures images == old(images) - {image.relPath}
    {
      if image.relPath in images {
        images := images - {image.relPath};
      }
    }

    /** clearImages: drop every row; the icon cache and the queue stay. */
    method ClearImages()
      requires Valid()
      modifies this`images
      ensures Valid()
      ensures images == map[]
    {
      images := map[];
    }

    /**
     * One pass of iconTask: take the oldest job, load its icon, and set that icon on the row of
     * the job's relative path if the window still has one. The queue's get blocks while it is empty.
     */
    method IconTaskStep()
      requires Valid() && |iconQueue| > 0
      modifies this`iconQueue, this`settled, this`images, this`popped
      ensures Valid()
      ensures iconQueue == old(iconQueue)[1..]
      ensures settled == old(settled) + {old(iconQueue)[0].icon}
      ensures old(iconQueue)[0] == enqueued[old(popped)] && popped == old(popped) + 1
      ensures var job := old(iconQueue)[0];
        images == if job.image.relPath in old(images) then old(images)[job.image.relPath := old(images)[job.image.relPath].(icon := job.icon)]
                  else old(images)
    {
      PopKeepsCache(imageIcons, iconQueue, iconsCreated, enqueued, popped, settled);
      var job := iconQueue[0];
      iconQueue := iconQueue[1..];
      popped := popped + 1;
      settled := settled + {job.icon};
      if job.image.relPath in images {
        images := images[job.image.relPath := images[job.image.relPath].(icon := job.icon)];
      }
    }

    /** addCategory: an item for a name the list does not show yet. */
    method AddCategory(name: string)
      requires CategoriesValid()
      modifies this`categories
      ensures CategoriesValid()
      ensures categories.Keys == old(categories).Keys + {name}
    {
      if name !in categories {
        var item := CategoryItem(name);
        categories := categories[name := item];
      }
    }

    /** removeCategory: drop the item of a shown name. */
    method RemoveCategory(name: string)
      requires CategoriesValid()
      modifies this`categories
      ensures CategoriesValid()
      ensures categories.Keys == old(categories).Keys - {name}
    {
      if name in categories {
        categories := categories - {name};
      }
    }

    /**
     * refreshUI: show exactly the backend's categories, then show exactly the given images of the
     * current category, in place of the old rows.
     */
    method RefreshUI(backend: seq<string>, shown: seq<Image>)
      requires Valid()
      modifies this`categories, this`images, this`imageIcons, this`iconQueue, this`iconsCreated, this`enqueued
      ensures Valid()
      ensures categories.Keys == Elements(backend)
      ensures images.Keys == PathsOf(shown)
      ensures forall k :: k in images ==> images[k].image in shown
      ensures Extended(old(imageIcons), old(enqueued), old(iconQueue), imageIcons, images, enqueued, iconQueue)
      ensures JobsFrom(old(imageIcons), old(enqueued), enqueued, shown)
    {
      SyncCategories(backend);
      ClearImages();
      ShowImages(shown);
    }

    /** The category half of refreshUI: remove the stale names, then add the backend's. */
    method SyncCategories(backend: seq<string>)
      requires CategoriesValid()
      modifies this`categories
      ensures CategoriesValid()
      ensures categories.Keys == Elements(backend)
    {
      var remove := StaleNames(backend);
      RemoveAll(remove);
      assert categories.Keys == old(categories).Keys - Stale(old(categories).Keys, backend);
      AddAll(backend);
    }

    /** The first loop of refreshUI: list every shown name the backend does not have. */
    method StaleNames(backend: seq<string>) returns (remove: seq<string>)
      ensures Elements(remove) == Stale(categories.Keys, backend)
    {
      remove := [];
      var todo := categories.Keys;
      while todo != {}
        invariant todo <= categories.Keys
        invariant Elements(remove) == Stale(categories.Keys - todo, backend)
        decreases todo
      {
        var category :| category in todo;
        ghost var before := categories.Keys - todo;
        assert categories.Keys - (todo - {category}) == before + {category};
        if category !in backend {
          ElementsAppend(remove, category);
          remove := remove + [category];
          assert Stale(before + {category}, backend) == Stale(before, backend) + {category};
        } else {
          assert Stale(before + {category}, backend) == Stale(before, backend);
        }
        todo := todo - {category};
      }
      assert categories.Keys - todo == categories.Keys;
    }

    /** The second loop of refreshUI: remove each listed name. */
    method RemoveAll(remove: seq<string>)
      requires CategoriesValid()
      modifies this`categories
      ensures CategoriesValid()
      ensures categories.Keys == old(categories).Keys - Elements(remove)
    {
      var i := 0;
      while i < |remove|
        invariant 0 <= i <= |remove|
        invariant CategoriesValid()
        invariant categories.Keys == old(categories).Keys - Elements(remove[..i])
      {
        RemoveCategory(remove[i]);
        assert remove[..i + 1] == remove[..i] + [remove[i]];
        i := i + 1;
      }
      assert remove[..i] == remove;
    }

    /** The third loop of refreshUI: add each of the backend's names. */
    method AddAll(backend: seq<string>)
      requires CategoriesValid()
      modifies this`categories
      ensures CategoriesValid()
      ensures categories.Keys == old(categories).Keys + Elements(backend)
    {
      var i := 0;
      while i < |backend|
        invariant 0 <= i <= |backend|
        invariant CategoriesValid()
        invariant categories.Keys == old(categories).Keys + Elements(backend[..i])
      {
        AddCategory(backend[i]);
        assert backend[..i + 1] == backend[..i] + [backend[i]];
        i := i + 1;
      }
      assert backend[..i] == backend;
    }

    /**
     * The last loop of refreshUI: add a row for each image of the current category. Every row shows
     * the icon cached for its image's absolute path, cached icons stay, and the queue gains exactly
     * the jobs made for the paths that were not cached yet.
     */
    method ShowImages(shown: seq<Image>)
      requires Valid() && images == map[]
      modifies this`images, this`imageIcons, this`iconQueue, this`iconsCreated, this`enqueued
      ensures Valid()
      ensures images.Keys == PathsOf(shown)
      ensures forall k :: k in images ==> images[k].image in shown
      ensures Extended(old(imageIcons), old(enqueued), old(iconQueue), imageIcons, images, enqueued, iconQueue)
      ensures JobsFrom(old(imageIcons), old(enqueued), enqueued, shown)
    {
      var i := 0;
      assert enqueued[..|enqueued|] == enqueued;
      while i < |shown|
        invariant 0 <= i <= |shown|
        invariant Valid()
        invariant images.Keys == PathsOf(shown[..i])
        invariant forall k :: k in images ==> images[k].image in shown[..i]
        invariant Extended(old(imageIcons), old(enqueued), old(iconQueue), imageIcons, images, enqueued, iconQueue)
        invariant JobsFrom(old(imageIcons), old(enqueued), enqueued, shown)
      {
        assert shown[..i + 1] == shown[..i] + [shown[i]];
        PathsOfAppend(shown[..i], shown[i]);
        assert shown[i] in shown[..i + 1];
        ShowImage(shown, i, old(imageIcons), old(enqueued), old(iconQueue));
        i := i + 1;
      }
      assert shown[..i] == shown;
    }

    /** One pass of that loop: addImage for shown[i], seen against the state the refresh started from. */
    method ShowImage(shown: seq<Image>, i: nat, ghost icons0: map<string, Icon>, ghost enqueued0: seq<Job>,
                     ghost queue0: seq<Job>)
      requires i < |shown| && Valid()
      requires Extended(icons0, enqueued0, queue0, imageIcons, images, enqueued, iconQueue)
      requires JobsFrom(icons0, enqueued0, enqueued, shown)
      modifies this`images, this`imageIcons, this`iconQueue, this`iconsCreated, this`enqueued
      ensures Valid()
      ensures Extended(icons0, enqueued0, queue0, imageIcons, images, enqueued, iconQueue)
      ensures JobsFrom(icons0, enqueued0, enqueued, shown)
      ensures images.Keys == old(images).Keys + {shown[i].relPath}
      ensures forall k :: k in images ==> (k in old(images) && images[k] == old(images)[k]) || images[k].image == shown[i]
    {
      var image := shown[i];
      ghost var rows, icons, jobs, queue := images, imageIcons, enqueued, iconQueue;
      assert iconsCreated == |jobs|;
      AddImage(image);
      if image.relPath !in rows {
        if image.absolutePath in icons {
          ShowCached(icons0, enqueued0, queue0, icons, rows, jobs, queue, image);
        } else {
          ShowUncached(icons0, enqueued0, queue0, icons, rows, jobs, queue, image, shown);
        }
      }
      RowAdded(rows, images, image);
    }
  }
}
