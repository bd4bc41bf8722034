/**
 * The local file system as the uploader sees it through `os.path.isfile` and
 * `os.listdir`: the node at a path is a regular file, a directory with its
 * entries in listing order, or something else (a FIFO, a socket, a device).
 */
module LocalFs {
  datatype Node =
    | File
    | Dir(children: seq<(string, Node)>)
    | Special

  /** The number of regular files in the tree. */
  function FileCount(node: Node): nat
    decreases node
  {
    match node
    case File => 1
    case Dir(children) => ChildrenFileCount(children)
    case Special => 0
  }

  function ChildrenFileCount(children: seq<(string, Node)>): nat
    decreases children
  {
    if children == [] then 0
    else
      assert children[0] in children && children[0].1 < children[0];
      FileCount(children[0].1) + ChildrenFileCount(children[1..])
  }
}
