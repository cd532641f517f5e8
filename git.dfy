/** The git working tree that the tag-listing service and
    `temporary_macro` check tags out into. The repository
    itself (clone, fetch, the object store) is outside the model: it is
    given as the list of its tag names and, for every ref `git checkout`
    accepts, the tree that checkout leaves on disk. */
module Git {
  import opened Common
  import opened Text
  import opened Paths

  /** A regular file: its name within its directory and its bytes. */
  datatype File = File(name: string, content: string)

  /** One step of `os.walk`: a directory, relative to the top of the working
      tree ("" for the top itself), and the files directly in it. */
  datatype DirEntry = DirEntry(root: string, files: seq<File>)

  /** A checked-out tree: its directories in the top-down order `os.walk`
      visits them. */
  type Tree = seq<DirEntry>

  /** What a walk can yield: file names are plain, non-empty names, and
      directories are given without leading or trailing separators. */
  ghost predicate WellFormedTree(tree: Tree)
  {
    forall i :: 0 <= i < |tree| ==>
      && (tree[i].root != [] ==> tree[i].root[0] != '/' && tree[i].root[|tree[i].root| - 1] != '/')
      && (forall j :: 0 <= j < |tree[i].files| ==>
            tree[i].files[j].name != [] && '/' !in tree[i].files[j].name)
  }

  /** The first file of `files` whose path, joined to `root`, is `path`. */
  function FindInDir(root: string, files: seq<File>, path: string): (r: Option<string>)
    ensures r.Some? <==> exists j :: 0 <= j < |files| && Join(root, files[j].name) == path
    ensures r.Some? ==> exists j :: 0 <= j < |files| && Join(root, files[j].name) == path
                                   && files[j].content == r.value
  {
    if files == [] then None
    else if Join(root, files[0].name) == path then Some(files[0].content)
    else
      var r := FindInDir(root, files[1..], path);
      assert forall j :: 0 < j < |files| ==> files[j] == files[1..][j - 1];
      r
  }

  /** `os.path.isfile(path)` followed by reading the file: the content of
      the regular file at `path` (relative to the top of the tree), or
      `None` when there is no such file. */
  function ReadFile(tree: Tree, path: string): (r: Option<string>)
    ensures r.Some? <==> exists i, j :: 0 <= i < |tree| && 0 <= j < |tree[i].files|
                                        && Join(tree[i].root, tree[i].files[j].name) == path
    ensures r.Some? ==> exists i, j :: 0 <= i < |tree| && 0 <= j < |tree[i].files|
                                       && Join(tree[i].root, tree[i].files[j].name) == path
                                       && tree[i].files[j].content == r.value
  {
    if tree == [] then None
    else
      var here := FindInDir(tree[0].root, tree[0].files, path);
      if here.Some? then here
      else
        var r := ReadFile(tree[1..], path);
        assert forall i :: 0 < i < |tree| ==> tree[i] == tree[1..][i - 1];
        r
  }

  /** The shared working tree. `git checkout` changes which ref it holds;
      `checkouts` records every checkout issued against it. */
  class WorkingTree {
    const tags: seq<string>
    const refs: map<string, Tree>
    var head: Option<string>
    ghost var checkouts: seq<string>

    constructor (tags: seq<string>, refs: map<string, Tree>)
      ensures this.tags == tags && this.refs == refs
      ensures head == None && checkouts == []
    {
      this.tags := tags;
      this.refs := refs;
      head := None;
      checkouts := [];
    }

    /** `git checkout ref`: succeeds exactly for a ref the repository
        knows, and then the working tree holds that ref; a failed checkout
        leaves the tree as it was. */
    method Checkout(ref: string) returns (ok: bool)
      modifies this
      ensures ok == (ref in refs)
      ensures head == (if ok then Some(ref) else old(head))
      ensures checkouts == old(checkouts) + [ref]
    {
      ok := ref in refs;
      if ok {
        head := Some(ref);
      }
      checkouts := checkouts + [ref];
    }
  }
}
