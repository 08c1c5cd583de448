/**
 * The first directory monitor: the same index over a set of category names, with no ordering
 * of the names, no persistence, no save timer and no filtering of the walk.
 */
module Prototype {
  import opened Lists
  import opened Images
  import opened Catalog

  class DirectoryMonitor {
    const rootDir: string
    /** The category names; a set, so it has no order and no repetition. */
    var categoryList: set<string>
    var files: Files

    /** Both reserved names are always in the category set. */
    ghost predicate SetValid()
      reads this`categoryList
    {
      Reserved <= categoryList
    }

    /** Every image sits under its own relative path below the root. */
    ghost predicate TableValid()
      reads this`files
    {
      Indexed(rootDir, files)
    }

    ghost predicate Valid()
      reads this
    {
      SetValid() && TableValid()
    }

    /** No image lists a reserved name or a name twice, and every name an image lists is in the set. */
    ghost predicate Consistent()
      reads this`files, this`categoryList
    {
      TagsClean(files) && TagsListed(files, categoryList)
    }

    /** __init__: the reserved pair and an empty table. */
    constructor (dir: string)
      ensures Valid() && Consistent()
      ensures rootDir == dir && categoryList == Reserved && files == map[]
    {
      rootDir := dir;
      categoryList := {Uncategorised, All};
      files := map[];
    }

    /** refresh: index every discovered path that is not indexed yet, configuration files included. */
    method Refresh(discovered: seq<string>)
      requires Valid()
      modifies this`files
      ensures Valid()
      ensures files == Scanned(rootDir, old(files), Elements(discovered))
      ensures old(Consistent()) ==> Consistent()
    {
      ScanAll(discovered);
      ScanKeepsInvariants(rootDir, old(files), Elements(discovered), categoryList);
    }

    /** The loop of refresh over the walked paths. */
    method ScanAll(discovered: seq<string>)
      modifies this`files
      ensures files == Scanned(rootDir, old(files), Elements(discovered))
    {
      ghost var seen: set<string> := {};
      var i := 0;
      while i < |discovered|
        invariant 0 <= i <= |discovered|
        invariant seen == Elements(discovered[..i])
        invariant files == Scanned(rootDir, old(files), seen)
      {
        var path := discovered[i];
        assert discovered[..i + 1] == discovered[..i] + [path];
        ScanStep(rootDir, old(files), seen, path);
        if path !in files {
          files := files[path := NewImage(rootDir, path)];
        }
        seen := seen + {path};
        i := i + 1;
      }
      assert discovered[..i] == discovered;
    }

    /** getCategories: the set itself, which always holds the reserved pair. */
    function GetCategories(): (names: set<string>)
      reads this
      requires Valid()
      ensures Uncategorised in names && All in names
      ensures names == categoryList
    {
      categoryList
    }

    /** getCategory: the images the view of the given name shows. */
    method GetCategory(category: string) returns (images: set<Image>)
      ensures images == Members(files, category)
    {
      images := {};
      var todo := files.Keys;
      while todo != {}
        invariant todo <= files.Keys
        invariant images == set k | k in files && k !in todo && InCategory(files[k], category) :: files[k]
        decreases todo
      {
        var k :| k in todo;
        var image := files[k];
        if category == All {
          images := images + {image};
        } else if category == Uncategorised {
          if |image.categories| == 0 {
            images := images + {image};
          }
        } else {
          if category in image.categories {
            images := images + {image};
          }
        }
        todo := todo - {k};
      }
    }

    /** addImageCategory: for a non-reserved name and an indexed image, add the name to the set and to the image. */
    method AddImageCategory(image: Image, category: string)
      requires Valid()
      modifies this`files, this`categoryList
      ensures Valid()
      ensures category in Reserved || image.relPath !in old(files) ==>
        files == old(files) && categoryList == old(categoryList)
      ensures category !in Reserved && image.relPath in old(files) ==>
        && files == old(files)[image.relPath := Tagged(old(files)[image.relPath], category)]
        && categoryList == old(categoryList) + {category}
      ensures old(Consistent()) ==> Consistent()
    {
      if category == All || category == Uncategorised {
        return;
      }
      if image.relPath in files {
        TagKeepsInvariants(rootDir, files, image.relPath, category, categoryList);
        if category !in categoryList {
          categoryList := categoryList + {category};
        }
        var indexed := files[image.relPath];
        if category !in indexed.categories {
          files := files[image.relPath := indexed.(categories := indexed.categories + [category])];
        }
      }
    }

    /** removeImageCategory: untag one indexed image; reserved names are ignored. */
    method RemoveImageCategory(image: Image, category: string)
      requires Valid()
      modifies this`files
      ensures Valid()
      ensures files ==
        if category in Reserved || image.relPath !in old(files) then old(files)
        else old(files)[image.relPath := Untagged(old(files)[image.relPath], category)]
      ensures old(Consistent()) ==> Consistent()
      ensures old(Consistent()) && image.relPath in files ==> category !in files[image.relPath].categories
    {
      if category == All || category == Uncategorised {
        return;
      }
      if image.relPath in files {
        UntagKeepsInvariants(rootDir, files, image.relPath, category, categoryList);
        var indexed := files[image.relPath];
        if category in indexed.categories {
          files := files[image.relPath := indexed.(categories := RemoveFirst(indexed.categories, category))];
        }
      }
    }

    /** removeCategory: untag every image and drop a listed, non-reserved name from the set. */
    method RemoveCategory(category: string)
      requires Valid()
      modifies this`files, this`categoryList
      ensures Valid()
      ensures category in Reserved || category !in old(categoryList) ==>
        files == old(files) && categoryList == old(categoryList)
      ensures category !in Reserved && category in old(categoryList) ==>
        files == UntaggedAll(old(files), category) && categoryList == old(categoryList) - {category}
      ensures old(Consistent()) ==> Consistent() && forall k :: k in files ==> category !in files[k].categories
    {
      if category == All || category == Uncategorised {
        return;
      }
      if category in categoryList {
        UntagAllKeepsInvariants(rootDir, files, category, categoryList);
        UntagAll(category);
        categoryList := categoryList - {category};
      } else if Consistent() {
        UnlistedIsUnused(files, categoryList, category);
      }
    }

    /** The loop of removeCategory: remove the name from every image that lists it. */
    method UntagAll(category: string)
      modifies this`files
      ensures files == UntaggedAll(old(files), category)
    {
      var todo := files.Keys;
      while todo != {}
        invariant todo <= files.Keys && files.Keys == old(files).Keys
        invariant forall k :: k in todo ==> files[k] == old(files)[k]
        invariant forall k :: k in files && k !in todo ==> files[k] == Untagged(old(files)[k], category)
        decreases todo
      {
        var k :| k in todo;
        var image := files[k];
        if category in image.categories {
          files := files[k := image.(categories := RemoveFirst(image.categories, category))];
        }
        todo := todo - {k};
      }
      assert files == UntaggedAll(old(files), category);
    }

    /**
     * renameCategory: rename a listed, non-reserved name to a new, non-reserved one that is not
     * in the set yet, in every image and in the set; any other request changes nothing.
     */
    method RenameCategory(category: string, newName: string)
      requires Valid()
      modifies this`files, this`categoryList
      ensures Valid()
      ensures category in Reserved || newName in Reserved || newName in old(categoryList) || category !in old(categoryList) ==>
        files == old(files) && categoryList == old(categoryList)
      ensures category !in Reserved && newName !in Reserved && newName !in old(categoryList) && category in old(categoryList) ==>
        && files == RelabelledAll(old(files), category, newName)
        && categoryList == old(categoryList) - {category} + {newName}
      ensures old(Consistent()) ==> Consistent()
      ensures old(Consistent()) && category !in Reserved && newName !in Reserved && newName !in old(categoryList) ==>
        forall k :: k in files ==>
          && category !in files[k].categories
          && (newName in files[k].categories <==> category in old(files)[k].categories)
    {
      if category == All || category == Uncategorised {
        return;
      }
      if newName == All || newName == Uncategorised {
        return;
      }
      if newName in categoryList {
        return;
      }
      if category in categoryList {
        RelabelAllKeepsInvariants(rootDir, files, category, newName, categoryList);
        RelabelAll(category, newName);
        categoryList := categoryList - {category} + {newName};
      } else if Consistent() {
        UnlistedIsUnused(files, categoryList, category);
        UnlistedIsUnused(files, categoryList, newName);
      }
    }

    /** The loop of renameCategory: replace the name by the new one in every image that lists it. */
    method RelabelAll(category: string, newName: string)
      modifies this`files
      ensures files == RelabelledAll(old(files), category, newName)
    {
      var todo := files.Keys;
      while todo != {}
        invariant todo <= files.Keys && files.Keys == old(files).Keys
        invariant forall k :: k in todo ==> files[k] == old(files)[k]
        invariant forall k :: k in files && k !in todo ==> files[k] == Relabelled(old(files)[k], category, newName)
        decreases todo
      {
        var k :| k in todo;
        var image := files[k];
        if category in image.categories {
          var kept := RemoveFirst(image.categories, category);
          files := files[k := image.(categories := kept + [newName])];
        }
        todo := todo - {k};
      }
      assert files == RelabelledAll(old(files), category, newName);
    }
  }
}
