/** The image record both directory monitors keep, and the two reserved category names. */
module Images {
  import opened Paths

  /** The computed view of images without categories. */
  const Uncategorised: string := "Uncategorised"
  /** The computed view of every image. */
  const All: string := "All"
  const Reserved: set<string> := {Uncategorised, All}

  /**
   * An indexed file: its base name, its path from the root (the key it is indexed under),
   * its resolved absolute path (the key of the icon cache) and the categories assigned to it.
   */
  datatype Image = Image(name: string, relPath: string, absolutePath: string, categories: seq<string>)

  /** Image(name, fromRootDir, rootDir) as the scan and the load create it: no categories yet. */
  function NewImage(root: string, relPath: string): Image
  {
    Image(BaseName(relPath), relPath, ResolvePath(root, relPath), [])
  }
}
