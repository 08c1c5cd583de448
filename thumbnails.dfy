/**
 * The thumbnail bookkeeping shared by the image list and the earlier main window: rows keyed
 * by relative path, icon handles cached by absolute path, and a FIFO of icons still to load.
 */
module Thumbnails {
  import opened Images

  /** A QIcon handle, identified by the order in which the view created it. */
  type Icon = nat

  /** One entry of the icon queue: the image whose file the worker loads into the icon. */
  datatype Job = Job(image: Image, icon: Icon)

  /** A list item: the icon it shows, its label and the image it carries as data. */
  datatype Row = Row(icon: Icon, text: string, image: Image)

  /**
   * The cache invariant. `enqueued` is the history of every job ever put on the queue and
   * `popped` the number the worker has taken; the queue is the part of the history not taken yet.
   * Icon i is the i-th icon created and belongs to the i-th job; the cache maps each cached path
   * to the icon of the one job made for it; an icon is loaded exactly when its job was taken.
   */
  ghost predicate CacheValid(icons: map<string, Icon>, queue: seq<Job>, created: nat,
                             enqueued: seq<Job>, popped: nat, settled: set<Icon>)
  {
    && created == |enqueued|
    && popped <= |enqueued| && queue == enqueued[popped..]
    && (forall i :: 0 <= i < |enqueued| ==> enqueued[i].icon == i)
    && (forall i :: 0 <= i < |enqueued| ==>
          enqueued[i].image.absolutePath in icons && icons[enqueued[i].image.absolutePath] == i)
    && (forall a :: a in icons ==> icons[a] < created && enqueued[icons[a]].image.absolutePath == a)
    && (forall i :: i in settled <==> 0 <= i < popped)
  }

  /** Every row is keyed by its image's relative path, shows a created icon and is labelled with the image's name. */
  ghost predicate RowsValid(rows: map<string, Row>, created: nat)
  {
    forall k :: k in rows ==> rows[k].image.relPath == k && rows[k].icon < created && rows[k].text == rows[k].image.name
  }

  /** Each absolute path is put on the queue at most once over the lifetime of the view. */
  lemma EnqueuedOnce(icons: map<string, Icon>, queue: seq<Job>, created: nat,
                     enqueued: seq<Job>, popped: nat, settled: set<Icon>)
    requires CacheValid(icons, queue, created, enqueued, popped, settled)
    ensures forall i, j :: 0 <= i < j < |enqueued| ==>
      enqueued[i].image.absolutePath != enqueued[j].image.absolutePath
  {
    forall i, j | 0 <= i < j < |enqueued|
      ensures enqueued[i].image.absolutePath != enqueued[j].image.absolutePath
    {
      assert icons[enqueued[i].image.absolutePath] == i && icons[enqueued[j].image.absolutePath] == j;
    }
  }

  /** A cached icon is either loaded already or waiting in the queue, at the position of its job. */
  lemma CachedIsLoadedOrQueued(icons: map<string, Icon>, queue: seq<Job>, created: nat,
                               enqueued: seq<Job>, popped: nat, settled: set<Icon>, a: string)
    requires CacheValid(icons, queue, created, enqueued, popped, settled) && a in icons
    ensures icons[a] in settled || (
      && popped <= icons[a] < popped + |queue|
      && queue[icons[a] - popped] == Job(queue[icons[a] - popped].image, icons[a])
      && queue[icons[a] - popped].image.absolutePath == a)
  {
    if icons[a] !in settled {
      assert queue[icons[a] - popped] == enqueued[icons[a]];
    }
  }

  /** addImage for an uncached path: a fresh icon is cached under it and queued with the image. */
  lemma EnqueueKeepsCache(icons: map<string, Icon>, queue: seq<Job>, created: nat,
                          enqueued: seq<Job>, popped: nat, settled: set<Icon>, image: Image)
    requires CacheValid(icons, queue, created, enqueued, popped, settled)
    requires image.absolutePath !in icons
    ensures CacheValid(icons[image.absolutePath := created], queue + [Job(image, created)], created + 1,
                       enqueued + [Job(image, created)], popped, settled)
  {
    var job := Job(image, created);
    var icons' := icons[image.absolutePath := created];
    var enqueued' := enqueued + [job];
    assert enqueued'[popped..] == enqueued[popped..] + [job];
    forall i | 0 <= i < |enqueued'|
      ensures enqueued'[i].image.absolutePath in icons' && icons'[enqueued'[i].image.absolutePath] == i
    {
      if i < |enqueued| {
        assert enqueued'[i] == enqueued[i];
        assert enqueued[i].image.absolutePath != image.absolutePath;
      }
    }
    forall a | a in icons' ensures icons'[a] < created + 1 && enqueued'[icons'[a]].image.absolutePath == a {
      if a != image.absolutePath {
        assert enqueued'[icons[a]] == enqueued[icons[a]];
      }
    }
  }

  /** One step of the icon task: the head of the queue is taken and its icon is loaded. */
  lemma PopKeepsCache(icons: map<string, Icon>, queue: seq<Job>, created: nat,
                      enqueued: seq<Job>, popped: nat, settled: set<Icon>)
    requires CacheValid(icons, queue, created, enqueued, popped, settled) && |queue| > 0
    ensures queue[0] == enqueued[popped] && queue[0].icon == popped
    ensures CacheValid(icons, queue[1..], created, enqueued, popped + 1, settled + {queue[0].icon})
  {
    assert queue[0] == enqueued[popped];
    assert enqueued[popped + 1..] == enqueued[popped..][1..];
  }
}
