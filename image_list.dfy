/** The image list widget's bookkeeping: its rows, its icon cache and the queue of the icon task. */
module ImageLists {
  import opened Images
  import opened Thumbnails

  class ImageList {
    /** _images: the row shown for each relative path. */
    var images: map<string, Row>
    /** _imageIcons: the icon created for each absolute path; never cleared. */
    var imageIcons: map<string, Icon>
    /** _iconQueue: the jobs the icon task has not taken yet, oldest first. */
    var iconQueue: seq<Job>
    /** The icons whose file the icon task has loaded. */
    var settled: set<Icon>
    /** How many QIcon handles the list has created; the next one is this number. */
    var iconsCreated: nat
    /** Every job ever put on the queue, and how many of them the icon task has taken. */
    ghost var enqueued: seq<Job>
    ghost var popped: nat

    ghost predicate Valid()
      reads this
    {
      CacheValid(imageIcons, iconQueue, iconsCreated, enqueued, popped, settled) && RowsValid(images, iconsCreated)
    }

    /** __init__: no rows, nothing cached, an empty queue. */
    constructor ()
      ensures Valid()
      ensures images == map[] && imageIcons == map[] && iconQueue == [] && settled == {} && iconsCreated == 0
    {
      images := map[];
      imageIcons := map[];
      iconQueue := [];
      settled := {};
      iconsCreated := 0;
      enqueued := [];
      popped := 0;
    }

    /**
     * addImage: a new row for an image whose relative path has none. A cached absolute path lends
     * its icon; otherwise a fresh icon is cached and queued with the image.
     */
    method AddImage(image: Image)
      requires Valid()
      modifies this
      ensures Valid()
      ensures settled == old(settled) && popped == old(popped)
      ensures image.relPath in old(images) ==>
        && images == old(images) && imageIcons == old(imageIcons) && iconQueue == old(iconQueue)
        && iconsCreated == old(iconsCreated) && enqueued == old(enqueued)
      ensures image.relPath !in old(images) && image.absolutePath in old(imageIcons) ==>
        && images == old(images)[image.relPath := Row(old(imageIcons)[image.absolutePath], image.name, image)]
        && imageIcons == old(imageIcons) && iconQueue == old(iconQueue)
        && iconsCreated == old(iconsCreated) && enqueued == old(enqueued)
      ensures image.relPath !in old(images) && image.absolutePath !in old(imageIcons) ==>
        && images == old(images)[image.relPath := Row(old(iconsCreated), image.name, image)]
        && imageIcons == old(imageIcons)[image.absolutePath := old(iconsCreated)]
        && iconQueue == old(iconQueue) + [Job(image, old(iconsCreated))]
        && iconsCreated == old(iconsCreated) + 1
        && enqueued == old(enqueued) + [Job(image, old(iconsCreated))]
    {
      if image.relPath !in images {
        var icon: Icon;
        if image.absolutePath in imageIcons {
          icon := imageIcons[image.absolutePath];
        } else {
          EnqueueKeepsCache(imageIcons, iconQueue, iconsCreated, enqueued, popped, settled, image);
          icon := iconsCreated;
          iconsCreated := iconsCreated + 1;
          iconQueue := iconQueue + [Job(image, icon)];
          enqueued := enqueued + [Job(image, icon)];
          imageIcons := imageIcons[image.absolutePath := icon];
        }
        var item := Row(icon, image.name, image);
        images := images[image.relPath := item];
      }
    }

    /** removeImage: drop the row of the image's relative path, if there is one. */
    method RemoveImage(image: Image)
      requires Valid()
      modifies this`images
      ensures Valid()
      ensures images == old(images) - {image.relPath}
    {
      if image.relPath in images {
        images := images - {image.relPath};
      }
    }

    /** clearImages: drop every row; the icon cache and the queue stay. */
    method ClearImages()
      requires Valid()
      modifies this`images
      ensures Valid()
      ensures images == map[]
    {
      images := map[];
    }

    /**
     * One pass of _iconTask: take the oldest job, load its icon, and set that icon on the row of
     * the job's relative path if the list still has one. The queue's get blocks while it is empty.
     */
    method IconTaskStep()
      requires Valid() && |iconQueue| > 0
      modifies this`iconQueue, this`settled, this`images, this`popped
      ensures Valid()
      ensures iconQueue == old(iconQueue)[1..]
      ensures settled == old(settled) + {old(iconQueue)[0].icon}
      ensures old(iconQueue)[0] == enqueued[old(popped)] && popped == old(popped) + 1
      ensures var job := old(iconQueue)[0];
        images == if job.image.relPath in old(images) then old(images)[job.image.relPath := old(images)[job.image.relPath].(icon := job.icon)]
                  else old(images)
    {
      PopKeepsCache(imageIcons, iconQueue, iconsCreated, enqueued, popped, settled);
      var job := iconQueue[0];
      iconQueue := iconQueue[1..];
      popped := popped + 1;
      settled := settled + {job.icon};
      if job.image.relPath in images {
        images := images[job.image.relPath := images[job.image.relPath].(icon := job.icon)];
      }
    }
  }
}
