/**
 * The category index as values: the table from relative path to image, the category list,
 * the per-image edits of the index operations, membership views and the persisted snapshot.
 */
module Catalog {
  import opened Lists
  import opened Order
  import opened Paths
  import opened Images

  /** The table from relative path to image. */
  type Files = map<string, Image>

  /** The persisted configuration: relative path to the image's category list. */
  type Snapshot = map<string, seq<string>>

  /** Every image sits under its own relative path and was created for the given root. */
  ghost predicate Indexed(root: string, files: Files)
  {
    forall k :: k in files ==> files[k] == NewImage(root, k).(categories := files[k].categories)
  }

  /** No image lists a category twice or lists a reserved name. */
  ghost predicate TagsClean(files: Files)
  {
    forall k :: k in files ==>
      NoDup(files[k].categories) && Uncategorised !in files[k].categories && All !in files[k].categories
  }

  /** Every category an image lists is one of the given names. */
  ghost predicate TagsListed(files: Files, names: set<string>)
  {
    forall k, c :: k in files && c in files[k].categories ==> c in names
  }

  /** Every name some image lists. */
  function UsedTags(files: Files): set<string>
  {
    set k, c | k in files && c in files[k].categories :: c
  }

  // ---------------------------------------------------------------------------------------
  // The category list

  /** The order _sortCategoryList leaves: the reserved pair, then the other names ascending, once each. */
  predicate WellFormed(list: seq<string>)
  {
    && |list| >= 2 && list[0] == Uncategorised && list[1] == All
    && StrictlySorted(list[2..]) && Uncategorised !in list[2..] && All !in list[2..]
  }

  lemma WellFormedNoDup(list: seq<string>)
    requires WellFormed(list)
    ensures NoDup(list)
  {
    forall i, j | 0 <= i < j < |list| ensures list[i] != list[j] {
      if i >= 2 {
        assert Less(list[2..][i - 2], list[2..][j - 2]);
        LessIrreflexive(list[i]);
      } else {
        assert j >= 2 ==> list[j] == list[2..][j - 2];
      }
    }
  }

  /**
   * _sortCategoryList: takes out one "Uncategorised" and one "All", sorts the rest and puts the
   * reserved pair back in front.
   */
  function Normalise(list: seq<string>): seq<string>
    requires Uncategorised in list && All in list
  {
    var rest := RemoveFirst(list, Uncategorised);
    assert All in multiset(rest);
    [Uncategorised, All] + Sort(RemoveFirst(rest, All))
  }

  /** The sort pins the reserved pair in front of the other names in ascending order, and loses or adds no name. */
  lemma NormaliseSorts(list: seq<string>)
    requires Uncategorised in list && All in list
    ensures |Normalise(list)| == |list|
    ensures Normalise(list)[0] == Uncategorised && Normalise(list)[1] == All
    ensures Sorted(Normalise(list)[2..])
    ensures multiset(Normalise(list)) == multiset(list)
  {
    var rest := RemoveFirst(list, Uncategorised);
    assert All in multiset(rest);
    var others := RemoveFirst(rest, All);
    RemoveTwoRestores(list, Uncategorised, All);
    PinnedFront(others);
  }

  lemma PinnedFront(others: seq<string>)
    ensures |[Uncategorised, All] + Sort(others)| == |others| + 2
    ensures ([Uncategorised, All] + Sort(others))[0] == Uncategorised
    ensures ([Uncategorised, All] + Sort(others))[1] == All
    ensures Sorted(([Uncategorised, All] + Sort(others))[2..])
    ensures multiset([Uncategorised, All] + Sort(others)) == multiset{Uncategorised, All} + multiset(others)
  {
    var sorted := Sort(others);
    assert ([Uncategorised, All] + sorted)[2..] == sorted;
    assert |multiset(sorted)| == |others|;
  }

  /** On a list without repetition that holds the reserved pair, the sort leaves a well-formed list with the same names. */
  lemma NormaliseWellFormed(list: seq<string>)
    requires NoDup(list) && Uncategorised in list && All in list
    ensures WellFormed(Normalise(list))
    ensures Elements(Normalise(list)) == Elements(list)
  {
    var r := Normalise(list);
    NormaliseSorts(list);
    PermutationKeepsNoDup(list, r);
    NoDupDrop(r, 2);
    SortedDistinctIsStrict(r[2..]);
    PermutationElements(list, r);
  }

  /** _sortCategoryList is a function of its input: any well-formed list with the same names is Normalise's. */
  lemma NormaliseIsTheSort(before: seq<string>, after: seq<string>)
    requires NoDup(before) && Uncategorised in before && All in before
    requires WellFormed(after) && Elements(after) == Elements(before)
    ensures after == Normalise(before)
  {
    NormaliseWellFormed(before);
    WellFormedUnique(after, Normalise(before));
  }

  /** A well-formed list is determined by its names. */
  lemma WellFormedUnique(a: seq<string>, b: seq<string>)
    requires WellFormed(a) && WellFormed(b) && Elements(a) == Elements(b)
    ensures a == b
  {
    assert a == a[..2] + a[2..] && b == b[..2] + b[2..];
    forall x ensures x in a[2..] <==> x in b[2..] {
      assert x in a <==> x in Elements(a);
      assert x in b <==> x in Elements(b);
      assert x in a <==> x in a[..2] || x in a[2..];
      assert x in b <==> x in b[..2] || x in b[2..];
    }
    StrictlySortedUnique(a[2..], b[2..]);
  }

  /**
   * addImageCategory and _load: appending a name that is not listed keeps the reserved pair,
   * repeats nothing and adds exactly that name; after the sort the list is well-formed.
   */
  lemma AddedUnsorted(list: seq<string>, c: string)
    requires WellFormed(list) && c !in list
    ensures Uncategorised in list + [c] && All in list + [c]
    ensures NoDup(list + [c]) && Elements(list + [c]) == Elements(list) + {c}
  {
    WellFormedNoDup(list);
    AppendNoDup(list, c);
  }

  lemma AddName(list: seq<string>, c: string)
    requires WellFormed(list) && c !in list
    ensures WellFormed(Normalise(list + [c]))
    ensures Elements(Normalise(list + [c])) == Elements(list) + {c}
  {
    AddedUnsorted(list, c);
    NormaliseWellFormed(list + [c]);
  }

  /** removeCategory: removing a listed, non-reserved name keeps the reserved pair and drops exactly that name. */
  lemma RemovedUnsorted(list: seq<string>, c: string)
    requires WellFormed(list) && c in list && c !in Reserved
    ensures Uncategorised in RemoveFirst(list, c) && All in RemoveFirst(list, c)
    ensures NoDup(RemoveFirst(list, c)) && Elements(RemoveFirst(list, c)) == Elements(list) - {c}
  {
    WellFormedNoDup(list);
    RemoveFirstNoDup(list, c);
    assert list[0] in list && list[1] in list;
  }

  lemma RemoveName(list: seq<string>, c: string)
    requires WellFormed(list) && c in list && c !in Reserved
    ensures WellFormed(Normalise(RemoveFirst(list, c)))
    ensures Elements(Normalise(RemoveFirst(list, c))) == Elements(list) - {c}
  {
    RemovedUnsorted(list, c);
    NormaliseWellFormed(RemoveFirst(list, c));
  }

  /** renameCategory: removing the old name and appending a new one swaps exactly those names. */
  lemma SwappedUnsorted(list: seq<string>, from: string, to: string)
    requires WellFormed(list) && from in list && from !in Reserved && to !in list
    ensures Uncategorised in RemoveFirst(list, from) + [to] && All in RemoveFirst(list, from) + [to]
    ensures NoDup(RemoveFirst(list, from) + [to])
    ensures Elements(RemoveFirst(list, from) + [to]) == Elements(list) - {from} + {to}
  {
    RemovedUnsorted(list, from);
    AppendNoDup(RemoveFirst(list, from), to);
  }

  lemma SwapName(list: seq<string>, from: string, to: string)
    requires WellFormed(list) && from in list && from !in Reserved && to !in list
    ensures WellFormed(Normalise(RemoveFirst(list, from) + [to]))
    ensures Elements(Normalise(RemoveFirst(list, from) + [to])) == Elements(list) - {from} + {to}
  {
    SwappedUnsorted(list, from, to);
    NormaliseWellFormed(RemoveFirst(list, from) + [to]);
  }

  // ---------------------------------------------------------------------------------------
  // Edits of one image's category list

  /** addImageCategory on an indexed image: append the category unless the image lists it. */
  function Tagged(image: Image, c: string): Image
  {
    if c in image.categories then image else image.(categories := image.categories + [c])
  }

  /** Tagging changes only the categories, adds exactly c, and keeps a list free of repetition with c once. */
  lemma TaggedFacts(image: Image, c: string)
    ensures Tagged(image, c) == image.(categories := Tagged(image, c).categories)
    ensures Elements(Tagged(image, c).categories) == Elements(image.categories) + {c}
    ensures c in image.categories ==> Tagged(image, c) == image
    ensures NoDup(image.categories) ==>
      NoDup(Tagged(image, c).categories) && multiset(Tagged(image, c).categories)[c] == 1
  {
    if c in image.categories {
      CountIfNoDup(image.categories, c);
    } else {
      AppendNoDupIf(image.categories, c);
    }
  }

  lemma CountIfNoDup(s: seq<string>, c: string)
    requires c in s
    ensures NoDup(s) ==> multiset(s)[c] == 1
  {
    if NoDup(s) {
      NoDupCount(s, c);
    }
  }

  lemma RemoveFirstIfNoDup(s: seq<string>, c: string)
    requires c in s
    ensures NoDup(s) ==> NoDup(RemoveFirst(s, c)) && Elements(RemoveFirst(s, c)) == Elements(s) - {c}
  {
    if NoDup(s) {
      RemoveFirstNoDup(s, c);
    }
  }

  lemma SwapIfNoDup(s: seq<string>, from: string, to: string)
    requires from in s
    ensures NoDup(s) && to !in s ==>
      NoDup(RemoveFirst(s, from) + [to]) && Elements(RemoveFirst(s, from) + [to]) == Elements(s) - {from} + {to}
  {
    if NoDup(s) && to !in s {
      RemoveFirstNoDup(s, from);
      assert to !in RemoveFirst(s, from);
      AppendNoDup(RemoveFirst(s, from), to);
    }
  }

  lemma AppendNoDupIf(s: seq<string>, c: string)
    requires c !in s
    ensures Elements(s + [c]) == Elements(s) + {c}
    ensures NoDup(s) ==> NoDup(s + [c]) && multiset(s + [c])[c] == 1
  {
    assert multiset(s)[c] == 0;
    if NoDup(s) {
      AppendNoDup(s, c);
    }
  }

  /** A guarded categories.remove(c): drop the first c if the image lists it. */
  function Untagged(image: Image, c: string): Image
  {
    if c in image.categories then image.(categories := RemoveFirst(image.categories, c)) else image
  }

  /** Untagging changes only the categories, removes one c, and on a list without repetition removes c entirely. */
  lemma UntaggedFacts(image: Image, c: string)
    ensures Untagged(image, c) == image.(categories := Untagged(image, c).categories)
    ensures c !in image.categories ==> Untagged(image, c) == image
    ensures c in image.categories ==>
      exists i :: 0 <= i < |image.categories| && image.categories[i] == c && c !in image.categories[..i] &&
        Untagged(image, c).categories == image.categories[..i] + image.categories[i + 1..]
    ensures c in image.categories ==>
      multiset(Untagged(image, c).categories) == multiset(image.categories) - multiset{c}
    ensures Elements(Untagged(image, c).categories) <= Elements(image.categories)
    ensures NoDup(image.categories) ==>
      NoDup(Untagged(image, c).categories) && Elements(Untagged(image, c).categories) == Elements(image.categories) - {c}
  {
    if c in image.categories {
      RemoveFirstIfNoDup(image.categories, c);
      forall d | d in Untagged(image, c).categories ensures d in image.categories {
        assert multiset(Untagged(image, c).categories)[d] > 0;
      }
    }
  }

  /** renameCategory on one image: if it lists `from`, remove it and append `to`. */
  function Relabelled(image: Image, from: string, to: string): Image
  {
    if from in image.categories then image.(categories := RemoveFirst(image.categories, from) + [to]) else image
  }

  /** Relabelling changes only the categories and, on a list without repetition or `to`, swaps one name for the other. */
  lemma RelabelledFacts(image: Image, from: string, to: string)
    ensures Relabelled(image, from, to) == image.(categories := Relabelled(image, from, to).categories)
    ensures from !in image.categories ==> Relabelled(image, from, to) == image
    ensures from in image.categories ==>
      exists i :: 0 <= i < |image.categories| && image.categories[i] == from && from !in image.categories[..i] &&
        Relabelled(image, from, to).categories == image.categories[..i] + image.categories[i + 1..] + [to]
    ensures from in image.categories ==>
      multiset(Relabelled(image, from, to).categories) == multiset(image.categories) - multiset{from} + multiset{to}
    ensures NoDup(image.categories) && to !in image.categories ==>
      && NoDup(Relabelled(image, from, to).categories)
      && Elements(Relabelled(image, from, to).categories) ==
         if from in image.categories then Elements(image.categories) - {from} + {to}
         else Elements(image.categories)
  {
    if from in image.categories {
      SwapIfNoDup(image.categories, from, to);
    }
  }

  // ---------------------------------------------------------------------------------------
  // Edits of the whole table and the invariants they keep

  /** addImageCategory keeps the table indexed and clean, and lists only the names plus the new one. */
  lemma TagKeepsInvariants(root: string, files: Files, k: string, c: string, names: set<string>)
    requires k in files && c !in Reserved
    ensures Indexed(root, files) ==> Indexed(root, files[k := Tagged(files[k], c)])
    ensures TagsClean(files) ==> TagsClean(files[k := Tagged(files[k], c)])
    ensures TagsListed(files, names) ==> TagsListed(files[k := Tagged(files[k], c)], names + {c})
  {
    var after := files[k := Tagged(files[k], c)];
    TaggedFacts(files[k], c);
    if TagsClean(files) {
      assert Uncategorised !in Elements(after[k].categories) && All !in Elements(after[k].categories);
    }
    if TagsListed(files, names) {
      forall j, d | j in after && d in after[j].categories ensures d in names + {c} {
        if j == k {
          assert d in Elements(after[j].categories);
        }
      }
    }
  }

  /** removeImageCategory keeps the invariants; on clean tags the image no longer lists the name. */
  lemma UntagKeepsInvariants(root: string, files: Files, k: string, c: string, names: set<string>)
    requires k in files
    ensures Indexed(root, files) ==> Indexed(root, files[k := Untagged(files[k], c)])
    ensures TagsClean(files) ==>
      TagsClean(files[k := Untagged(files[k], c)]) && c !in Untagged(files[k], c).categories
    ensures TagsListed(files, names) ==> TagsListed(files[k := Untagged(files[k], c)], names)
  {
    var after := files[k := Untagged(files[k], c)];
    UntaggedFacts(files[k], c);
    if TagsClean(files) {
      assert c !in Elements(after[k].categories);
      assert Uncategorised !in Elements(after[k].categories) && All !in Elements(after[k].categories);
    }
    if TagsListed(files, names) {
      forall j, d | j in after && d in after[j].categories ensures d in names {
        if j == k {
          assert d in Elements(after[j].categories);
        }
      }
    }
  }

  /** A name the list does not hold is on no image. */
  lemma UnlistedIsUnused(files: Files, names: set<string>, c: string)
    requires TagsListed(files, names) && c !in names
    ensures forall k :: k in files ==> c !in files[k].categories
  {
  }

  /** removeCategory over the table: every image untagged. */
  function UntaggedAll(files: Files, c: string): Files
  {
    map k | k in files :: Untagged(files[k], c)
  }

  /** With clean tags, removeCategory leaves no image listing the name and keeps the others listed. */
  lemma UntagAllKeepsInvariants(root: string, files: Files, c: string, names: set<string>)
    ensures UntaggedAll(files, c).Keys == files.Keys
    ensures Indexed(root, files) ==> Indexed(root, UntaggedAll(files, c))
    ensures TagsClean(files) ==>
      && TagsClean(UntaggedAll(files, c))
      && forall k :: k in files ==> c !in UntaggedAll(files, c)[k].categories
    ensures TagsClean(files) && TagsListed(files, names) ==> TagsListed(UntaggedAll(files, c), names - {c})
  {
    var after := UntaggedAll(files, c);
    forall k | k in files
      ensures after[k] == files[k].(categories := after[k].categories)
      ensures Elements(after[k].categories) <= Elements(files[k].categories)
      ensures NoDup(files[k].categories) ==>
        NoDup(after[k].categories) && Elements(after[k].categories) == Elements(files[k].categories) - {c}
    {
      UntaggedFacts(files[k], c);
    }
    if TagsClean(files) {
      forall k | k in files
        ensures c !in after[k].categories && Uncategorised !in after[k].categories && All !in after[k].categories
      {
        assert c !in Elements(after[k].categories);
        assert Uncategorised !in Elements(after[k].categories) && All !in Elements(after[k].categories);
      }
      if TagsListed(files, names) {
        forall k, d | k in after && d in after[k].categories ensures d in names - {c} {
          assert d in Elements(after[k].categories);
        }
      }
    }
  }

  /** renameCategory over the table: every image relabelled. */
  function RelabelledAll(files: Files, from: string, to: string): Files
  {
    map k | k in files :: Relabelled(files[k], from, to)
  }

  /**
   * With clean tags and a new name nobody lists, renameCategory moves every image from the old
   * name to the new one and keeps the tags clean and listed.
   */
  lemma RelabelAllKeepsInvariants(root: string, files: Files, from: string, to: string, names: set<string>)
    requires to !in Reserved
    ensures RelabelledAll(files, from, to).Keys == files.Keys
    ensures Indexed(root, files) ==> Indexed(root, RelabelledAll(files, from, to))
    ensures TagsClean(files) && TagsListed(files, names) && to !in names ==>
      && TagsClean(RelabelledAll(files, from, to))
      && TagsListed(RelabelledAll(files, from, to), names - {from} + {to})
      && forall k :: k in files ==>
           && from !in RelabelledAll(files, from, to)[k].categories
           && (to in RelabelledAll(files, from, to)[k].categories <==> from in files[k].categories)
  {
    var after := RelabelledAll(files, from, to);
    forall k | k in files ensures after[k] == files[k].(categories := after[k].categories) {
      RelabelledFacts(files[k], from, to);
    }
    if TagsClean(files) && TagsListed(files, names) && to !in names {
      forall k | k in files
        ensures NoDup(after[k].categories)
        ensures Elements(after[k].categories) ==
          if from in files[k].categories then Elements(files[k].categories) - {from} + {to}
          else Elements(files[k].categories)
      {
        assert to !in files[k].categories;
        RelabelledFacts(files[k], from, to);
      }
      forall k | k in files
        ensures from !in after[k].categories
        ensures to in after[k].categories <==> from in files[k].categories
        ensures Uncategorised !in after[k].categories && All !in after[k].categories
      {
        assert from !in Elements(after[k].categories);
        assert to in Elements(after[k].categories) <==> from in files[k].categories;
        assert Uncategorised !in Elements(after[k].categories) && All !in Elements(after[k].categories);
      }
      forall k, d | k in after && d in after[k].categories ensures d in names - {from} + {to} {
        assert d in Elements(after[k].categories);
      }
    }
  }

  // ---------------------------------------------------------------------------------------
  // Membership views

  /** The test getCategory applies to each image. */
  predicate InCategory(image: Image, c: string)
  {
    if c == All then true
    else if c == Uncategorised then |image.categories| == 0
    else c in image.categories
  }

  /** getCategory(c): the images of the table that pass the test for c. */
  function Members(files: Files, c: string): set<Image>
  {
    set k | k in files && InCategory(files[k], c) :: files[k]
  }

  /** "All" is every image of the table. */
  lemma AllIsEveryImage(files: Files)
    ensures Members(files, All) == files.Values
  {
    forall i | i in files.Values ensures i in Members(files, All) {
      var k :| k in files && files[k] == i;
    }
  }

  /** "Uncategorised" is exactly the images with no categories. */
  lemma UncategorisedIsUntagged(files: Files, image: Image)
    ensures image in Members(files, Uncategorised) <==> image in files.Values && image.categories == []
  {
    if image in files.Values {
      var k :| k in files && files[k] == image;
    }
  }

  /** A named category holds exactly the images that list it; none for a name nobody lists. */
  lemma NamedMembers(files: Files, c: string, image: Image)
    requires c !in Reserved
    ensures image in Members(files, c) <==> image in files.Values && c in image.categories
  {
    if image in files.Values {
      var k :| k in files && files[k] == image;
    }
  }

  lemma UnknownCategoryIsEmpty(files: Files, names: set<string>, c: string)
    requires TagsListed(files, names) && c !in names && c !in Reserved
    ensures Members(files, c) == {}
  {
    forall k | k in files ensures !InCategory(files[k], c) {
    }
  }

  /** With clean tags, a named category and "Uncategorised" never share an image, and every image is in one of them. */
  lemma UncategorisedPartition(files: Files, image: Image)
    requires TagsClean(files) && image in files.Values
    ensures image in Members(files, Uncategorised) <==> forall c :: c !in Reserved ==> image !in Members(files, c)
  {
    UncategorisedIsUntagged(files, image);
    if image.categories != [] {
      var c := image.categories[0];
      var k :| k in files && files[k] == image;
      NamedMembers(files, c, image);
    } else {
      forall c | c !in Reserved ensures image !in Members(files, c) {
        NamedMembers(files, c, image);
      }
    }
  }

  // ---------------------------------------------------------------------------------------
  // The scan

  /** refresh: every candidate path not yet indexed gets a new image; nothing else changes. */
  function Scanned(root: string, files: Files, paths: set<string>): Files
  {
    files + map p | p in paths && p !in files :: NewImage(root, p)
  }

  /** The paths a walk offers the later monitor: everything but the configuration files. */
  function Candidates(discovered: seq<string>): set<string>
  {
    set p | p in discovered && !IsConfigFile(p)
  }

  /** What the scan leaves under one key. */
  lemma ScannedAt(root: string, files: Files, paths: set<string>, k: string)
    ensures k in Scanned(root, files, paths) <==> k in files || k in paths
    ensures k in files ==> Scanned(root, files, paths)[k] == files[k]
    ensures k !in files && k in paths ==> Scanned(root, files, paths)[k] == NewImage(root, k)
  {
  }

  /** The scan is additive: indexed images keep their entry, new keys are candidates with no categories. */
  lemma ScanAdditive(root: string, files: Files, paths: set<string>)
    ensures Scanned(root, files, paths).Keys == files.Keys + paths
    ensures forall k :: k in files ==> Scanned(root, files, paths)[k] == files[k]
    ensures forall k :: k in paths && k !in files ==> Scanned(root, files, paths)[k] == NewImage(root, k)
  {
    forall k ensures k in Scanned(root, files, paths) <==> k in files || k in paths {
      ScannedAt(root, files, paths, k);
    }
  }

  /** Scanning the same paths again changes nothing. */
  lemma ScanIdempotent(root: string, files: Files, paths: set<string>)
    ensures Scanned(root, Scanned(root, files, paths), paths) == Scanned(root, files, paths)
  {
    var once := Scanned(root, files, paths);
    ScanAdditive(root, files, paths);
    assert (map p | p in paths && p !in once :: NewImage(root, p)) == map[];
  }

  /** The scan keeps every invariant of the table. */
  lemma ScanKeepsInvariants(root: string, files: Files, paths: set<string>, names: set<string>)
    ensures Indexed(root, files) ==> Indexed(root, Scanned(root, files, paths))
    ensures TagsClean(files) ==> TagsClean(Scanned(root, files, paths))
    ensures TagsListed(files, names) ==> TagsListed(Scanned(root, files, paths), names)
  {
    var after := Scanned(root, files, paths);
    if Indexed(root, files) {
      forall k | k in after ensures after[k] == NewImage(root, k).(categories := after[k].categories) {
        ScannedAt(root, files, paths, k);
      }
    }
    if TagsClean(files) {
      forall k | k in after
        ensures NoDup(after[k].categories) && Uncategorised !in after[k].categories && All !in after[k].categories
      {
        ScannedAt(root, files, paths, k);
      }
    }
    if TagsListed(files, names) {
      forall k, c | k in after && c in after[k].categories ensures c in names {
        ScannedAt(root, files, paths, k);
      }
    }
  }

  /** One more path considered by the loop of refresh. */
  lemma ScanStep(root: string, files: Files, paths: set<string>, p: string)
    ensures p in files || p in paths ==> Scanned(root, files, paths + {p}) == Scanned(root, files, paths)
    ensures p !in files && p !in paths ==>
      Scanned(root, files, paths + {p}) == Scanned(root, files, paths)[p := NewImage(root, p)]
  {
    var before := Scanned(root, files, paths);
    var after := Scanned(root, files, paths + {p});
    var expected := if p in files || p in paths then before else before[p := NewImage(root, p)];
    forall k ensures k in after <==> k in expected {
      ScannedAt(root, files, paths, k);
      ScannedAt(root, files, paths + {p}, k);
    }
    forall k | k in after ensures after[k] == expected[k] {
      ScannedAt(root, files, paths, k);
      ScannedAt(root, files, paths + {p}, k);
    }
    assert after == expected;
  }

  // ---------------------------------------------------------------------------------------
  // Persistence

  /** save: each image's relative path mapped to its category list. */
  function SnapshotOf(files: Files): Snapshot
  {
    map k | k in files :: files[k].categories
  }

  /** The image _load rebuilds for one entry of the snapshot. */
  function RestoredImage(root: string, path: string, categories: seq<string>): Image
  {
    NewImage(root, path).(categories := categories)
  }

  /** _load: one image per entry, with the saved categories. */
  function Restored(root: string, snapshot: Snapshot): Files
  {
    map k | k in snapshot :: RestoredImage(root, k, snapshot[k])
  }

  /** Every name that occurs in some list of the snapshot. */
  function SnapshotTags(snapshot: Snapshot): set<string>
  {
    set k, c | k in snapshot && c in snapshot[k] :: c
  }

  /** A snapshot whose lists repeat no name and hold no reserved name, as save writes from clean tags. */
  ghost predicate CleanSnapshot(snapshot: Snapshot)
  {
    forall k :: k in snapshot ==>
      NoDup(snapshot[k]) && Uncategorised !in snapshot[k] && All !in snapshot[k]
  }

  /** Loading what save wrote gives back the same table, and the names in use. */
  lemma SaveLoadRoundTrip(root: string, files: Files)
    requires Indexed(root, files)
    ensures Restored(root, SnapshotOf(files)) == files
    ensures SnapshotTags(SnapshotOf(files)) == UsedTags(files)
    ensures TagsClean(files) ==> CleanSnapshot(SnapshotOf(files))
  {
    var saved := SnapshotOf(files);
    RestoredTable(root, saved, files);
    forall c ensures c in SnapshotTags(saved) <==> c in UsedTags(files) {
      if c in UsedTags(files) {
        var k :| k in files && c in files[k].categories;
        assert c in saved[k];
      }
    }
  }

  lemma RestoredTable(root: string, saved: Snapshot, files: Files)
    requires Indexed(root, files) && saved == SnapshotOf(files)
    ensures Restored(root, saved) == files
  {
    var back := Restored(root, saved);
    assert back.Keys == files.Keys;
    forall k | k in files ensures back[k] == files[k] {
      assert saved[k] == files[k].categories;
      assert back[k] == RestoredImage(root, k, saved[k]);
    }
  }

  /** The images _load has built once it has read the entries under the given paths. */
  function RestoredUnder(root: string, snapshot: Snapshot, paths: set<string>): Files
  {
    map k | k in snapshot && k in paths :: RestoredImage(root, k, snapshot[k])
  }

  /** Reading one more entry writes its image over the table built so far. */
  lemma RestoredUnderStep(root: string, files: Files, snapshot: Snapshot, paths: set<string>, p: string)
    requires p in snapshot
    ensures files + RestoredUnder(root, snapshot, paths + {p}) ==
            (files + RestoredUnder(root, snapshot, paths))[p := RestoredImage(root, p, snapshot[p])]
  {
    var before := files + RestoredUnder(root, snapshot, paths);
    var after := files + RestoredUnder(root, snapshot, paths + {p});
    assert after.Keys == before.Keys + {p};
  }

  /** Reading every entry builds the whole restored table. */
  lemma RestoredUnderAll(root: string, snapshot: Snapshot)
    ensures RestoredUnder(root, snapshot, snapshot.Keys) == Restored(root, snapshot)
  {
  }

  /** Once every entry is read, the table is the start table overwritten by the restored images, and still indexed. */
  lemma LoadedAll(root: string, files: Files, snapshot: Snapshot, paths: set<string>)
    requires paths == snapshot.Keys
    ensures files + RestoredUnder(root, snapshot, paths) == files + Restored(root, snapshot)
    ensures TagsUnder(snapshot, paths) == SnapshotTags(snapshot)
    ensures Indexed(root, files) ==> Indexed(root, files + RestoredUnder(root, snapshot, paths))
  {
    RestoredUnderAll(root, snapshot);
    TagsUnderAll(snapshot);
    RestoredInvariants(root, snapshot);
    MergeKeepsInvariants(root, files, Restored(root, snapshot), {}, {});
  }

  /** The names listed by the snapshot's entries under the given paths. */
  function TagsUnder(snapshot: Snapshot, paths: set<string>): set<string>
  {
    set k, c | k in snapshot && k in paths && c in snapshot[k] :: c
  }

  /** Loading one more entry adds the names it lists. */
  lemma TagsUnderStep(snapshot: Snapshot, paths: set<string>, p: string)
    requires p in snapshot
    ensures TagsUnder(snapshot, paths + {p}) == TagsUnder(snapshot, paths) + Elements(snapshot[p])
  {
    forall c | c in snapshot[p] ensures c in TagsUnder(snapshot, paths + {p}) {
      assert p in paths + {p};
    }
  }

  /** Loading every entry adds every name of the snapshot. */
  lemma TagsUnderAll(snapshot: Snapshot)
    ensures TagsUnder(snapshot, snapshot.Keys) == SnapshotTags(snapshot)
  {
  }

  /** _load writes the restored images over the table it starts from; the invariants combine. */
  lemma MergeKeepsInvariants(root: string, files: Files, restored: Files, names: set<string>, more: set<string>)
    ensures Indexed(root, files) && Indexed(root, restored) ==> Indexed(root, files + restored)
    ensures TagsClean(files) && TagsClean(restored) ==> TagsClean(files + restored)
    ensures TagsListed(files, names) && TagsListed(restored, more) ==> TagsListed(files + restored, names + more)
  {
  }

  /** What a load establishes of the table it builds. */
  lemma RestoredInvariants(root: string, snapshot: Snapshot)
    ensures Indexed(root, Restored(root, snapshot))
    ensures TagsListed(Restored(root, snapshot), SnapshotTags(snapshot))
    ensures CleanSnapshot(snapshot) ==> TagsClean(Restored(root, snapshot))
  {
  }

  /**
   * After a save and a fresh load the category list is the well-formed list of the reserved pair
   * and the names in use; it equals the list before the save exactly when every listed name was in use.
   */
  lemma ReloadedList(files: Files, before: seq<string>, after: seq<string>)
    requires WellFormed(before) && TagsListed(files, Elements(before))
    requires WellFormed(after) && Elements(after) == Reserved + UsedTags(files)
    ensures after == before <==> Elements(before) <= Reserved + UsedTags(files)
  {
    assert before[0] in before && before[1] in before;
    assert UsedTags(files) <= Elements(before);
    if Elements(before) <= Reserved + UsedTags(files) {
      WellFormedUnique(before, after);
    }
  }
}
