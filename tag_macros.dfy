/** The git tag service: for an application and a tag of the macro
    repository, the rendered list of the application's macros at that tag;
    for no tag, the rendered list of all tags. Rendered macro lists are kept
    in a 50-entry LRU cache keyed by application and tag.

    The page template is given to the service as a function from what it is
    rendered with to text; the checkout lock is left out because the model
    runs one call at a time. */
module TagMacros {
  import opened Common
  import opened Text
  import opened Paths
  import opened NatSort
  import opened Lru
  import opened Git

  /** `macro_dir_map`: the directory of the repository holding each known
      application's macros. */
  const MacroDirMap: map<string, string> :=
    map["LUXSim" := "BackgroundMacros", "BACCARAT" := "BaccValidationMacros"]

  /** The application `index` uses when the caller names none. */
  const DefaultApp: string := "LUXSim"

  const CacheCapacity: nat := 50

  datatype Macro = Macro(name: string, path: string)

  /** What the page template is rendered with. */
  datatype Page = TagList(tags: seq<string>) | MacroList(macros: seq<Macro>)

  datatype IndexError = CheckoutFailed(ref: string)

  /** The two applications with a macro directory, and no other. */
  lemma KnownApps(app: string)
    ensures app in MacroDirMap <==> app == "LUXSim" || app == "BACCARAT"
    ensures app == "LUXSim" ==> MacroDirMap[app] == "BackgroundMacros"
    ensures app == "BACCARAT" ==> MacroDirMap[app] == "BaccValidationMacros"
  {
  }

  function AppOrDefault(app: Option<string>): string
  {
    if app.Some? then app.value else DefaultApp
  }

  /** `str(tagid)` for a tag that may be absent. */
  function TagText(tagid: Option<string>): (r: string)
    ensures r == "None" <==> tagid == None || tagid == Some("None")
  {
    if tagid.Some? then tagid.value else "None"
  }

  /** `app + '::' + str(tagid)`. */
  function CacheKey(app: string, tagid: Option<string>): (key: string)
    ensures StartsWith(key, app + "::")
    ensures key[|app| + 2..] == TagText(tagid)
  {
    app + "::" + TagText(tagid)
  }

  /** For one application, two lookups share a cache key exactly when their
      tags print the same, so an absent tag and the tag named "None" share
      one. */
  lemma CacheKeySharedExactly(app: string, t1: Option<string>, t2: Option<string>)
    ensures CacheKey(app, t1) == CacheKey(app, t2) <==> TagText(t1) == TagText(t2)
    ensures CacheKey(app, None) == CacheKey(app, Some("None"))
  {
    if CacheKey(app, t1) == CacheKey(app, t2) {
      assert CacheKey(app, t1)[|app| + 2..] == CacheKey(app, t2)[|app| + 2..];
    }
  }

  /** The macros among the files of one directory, in order: every file
      whose name ends in ".mac", named by its name without the extension
      and located by its path relative to the top of the working tree. */
  function MacrosInDir(root: string, files: seq<File>): (r: seq<Macro>)
    ensures forall m :: m in r <==> exists j :: 0 <= j < |files| && EndsWith(files[j].name, ".mac")
                                         && m == Macro(StripExt(files[j].name), Join(root, files[j].name))
  {
    if files == [] then []
    else
      var rest := MacrosInDir(root, files[1..]);
      assert forall j :: 0 < j < |files| ==> files[j] == files[1..][j - 1];
      var f := files[0];
      if EndsWith(f.name, ".mac") then [Macro(StripExt(f.name), Join(root, f.name))] + rest else rest
  }

  /** The macros `os.walk` finds below directory `dir` of the tree, in walk
      order. */
  function ListMacros(tree: Tree, dir: string): (r: seq<Macro>)
    ensures forall m :: m in r <==>
      exists i, j :: 0 <= i < |tree| && Under(tree[i].root, dir) && 0 <= j < |tree[i].files|
                     && EndsWith(tree[i].files[j].name, ".mac")
                     && m == Macro(StripExt(tree[i].files[j].name), Join(tree[i].root, tree[i].files[j].name))
  {
    if tree == [] then []
    else
      var rest := ListMacros(tree[1..], dir);
      assert forall i :: 0 < i < |tree| ==> tree[i] == tree[1..][i - 1];
      if Under(tree[0].root, dir) then MacrosInDir(tree[0].root, tree[0].files) + rest else rest
  }

  /** A ".mac" file of a directory below `dir`, joined to that directory,
      is a ".mac" path below `dir` whose base name is the file's name. */
  lemma MacroPathShape(root: string, dir: string, name: string)
    requires dir != [] && Under(root, dir)
    requires root[|root| - 1] != '/'
    requires name != [] && '/' !in name && EndsWith(name, ".mac")
    ensures EndsWith(Join(root, name), ".mac")
    ensures StartsWith(Join(root, name), dir + "/")
    ensures Basename(Join(root, name)) == name
  {
    var p := root + "/" + name;
    assert Join(root, name) == p;
    assert p[|p| - 4..] == name[|name| - 4..];
    if root == dir {
      assert p[..|dir + "/"|] == dir + "/";
    } else {
      assert p[..|dir + "/"|] == root[..|dir + "/"|];
    }
    BasenameOfJoin(root, name);
  }

  /** Every listed macro is a ".mac" file below the application's directory,
      its path is relative to the top of the working tree, and its name is
      its file name without the extension. */
  lemma ListedMacroShape(tree: Tree, dir: string, m: Macro)
    requires WellFormedTree(tree) && dir != []
    requires m in ListMacros(tree, dir)
    ensures EndsWith(m.path, ".mac")
    ensures StartsWith(m.path, dir + "/")
    ensures m.name == StripExt(Basename(m.path))
  {
    var i, j :| 0 <= i < |tree| && Under(tree[i].root, dir) && 0 <= j < |tree[i].files|
                && EndsWith(tree[i].files[j].name, ".mac")
                && m == Macro(StripExt(tree[i].files[j].name), Join(tree[i].root, tree[i].files[j].name));
    var root, name := tree[i].root, tree[i].files[j].name;
    assert root != [] by {
      if root != dir { assert |root| >= |dir + "/"|; }
    }
    MacroPathShape(root, dir, name);
  }

  /** A directory holding one ".mac" file lists that one macro. */
  lemma MacrosInDirSingle(root: string, f: File)
    requires EndsWith(f.name, ".mac")
    ensures MacrosInDir(root, [f]) == [Macro(StripExt(f.name), Join(root, f.name))]
  {
    assert [f][1..] == [];
  }

  /** The file "stem.mac" ends in ".mac", loses exactly that suffix, and
      joins to a directory with a separator. */
  lemma MacFileName(root: string, stem: string)
    requires root != [] && root[|root| - 1] != '/'
    requires '/' !in stem && exists i :: 0 <= i < |stem| && stem[i] != '.'
    ensures EndsWith(stem + ".mac", ".mac")
    ensures StripExt(stem + ".mac") == stem
    ensures Join(root, stem + ".mac") == root + "/" + stem + ".mac"
  {
    var name := stem + ".mac";
    StripMacSuffix(stem);
    assert name[|name| - 4..] == ".mac";
    assert name[0] == stem[0];
    assert root + "/" + name == root + "/" + stem + ".mac";
  }

  /** In a directory, a file "stem.mac" is listed under the name "stem". */
  lemma MacroOfMacFile(root: string, stem: string)
    requires root != [] && root[|root| - 1] != '/'
    requires '/' !in stem && exists i :: 0 <= i < |stem| && stem[i] != '.'
    ensures MacrosInDir(root, [File(stem + ".mac", "")]) == [Macro(stem, root + "/" + stem + ".mac")]
  {
    MacFileName(root, stem);
    MacrosInDirSingle(root, File(stem + ".mac", ""));
  }

  /** A file "stem.mac" of the LUXSim macro directory is listed under the
      name "stem". */
  lemma MacroNamedByStem(stem: string)
    requires '/' !in stem && exists i :: 0 <= i < |stem| && stem[i] != '.'
    ensures MacrosInDir("BackgroundMacros", [File(stem + ".mac", "")])
         == [Macro(stem, "BackgroundMacros/" + stem + ".mac")]
  {
    var dir := "BackgroundMacros";
    assert dir[|dir| - 1] == 's';
    MacroOfMacFile(dir, stem);
    assert dir + "/" == "BackgroundMacros/";
  }

  /** The service object: its working tree, its page template and its tag
      cache. */
  class GitTagMacros {
    const repo: WorkingTree
    const render: Page -> string
    const tagCache: LruCache

    ghost predicate Valid()
      reads this, tagCache
    {
      tagCache.Valid() && tagCache.capacity == CacheCapacity
    }

    constructor (repo: WorkingTree, render: Page -> string)
      ensures Valid() && fresh(tagCache)
      ensures this.repo == repo && this.render == render
      ensures tagCache.table == map[]
    {
      this.repo := repo;
      this.render := render;
      tagCache := new LruCache(CacheCapacity);
    }

    /** `index(tagid, app)`. A cached key is answered from the cache (which
        marks it most recently used) without checking anything out. On a
        miss: no tag gives the rendered list of all tags, naturally sorted,
        latest first, and caches nothing; an application without a macro
        directory gives "" and caches nothing; otherwise the tag is checked
        out once, and the rendered list of the macros found below the
        application's directory is stored under the key and returned. A
        failed checkout is reported and caches nothing. */
    method Index(tagid: Option<string>, app: Option<string>) returns (r: Result<string, IndexError>)
      requires Valid()
      modifies tagCache, repo
      ensures Valid()
      ensures var key := CacheKey(AppOrDefault(app), tagid);
        key in old(tagCache.table) ==>
          && r == Ok(old(tagCache.table)[key])
          && tagCache.table == old(tagCache.table)
          && tagCache.order == Touch(old(tagCache.order), key)
          && unchanged(repo)
      ensures var key := CacheKey(AppOrDefault(app), tagid);
        key !in old(tagCache.table) && tagid.None? ==>
          && r == Ok(render(TagList(SortDescending(repo.tags))))
          && unchanged(tagCache) && unchanged(repo)
      ensures var key := CacheKey(AppOrDefault(app), tagid);
        key !in old(tagCache.table) && tagid.Some? && AppOrDefault(app) !in MacroDirMap ==>
          && r == Ok("")
          && unchanged(tagCache) && unchanged(repo)
      ensures var key := CacheKey(AppOrDefault(app), tagid);
        key !in old(tagCache.table) && tagid.Some? && AppOrDefault(app) in MacroDirMap ==>
          && repo.checkouts == old(repo.checkouts) + [tagid.value]
          && (tagid.value in repo.refs ==>
                var html := render(MacroList(ListMacros(repo.refs[tagid.value], MacroDirMap[AppOrDefault(app)])));
                && repo.head == Some(tagid.value)
                && r == Ok(html)
                && tagCache.Entries() == Insert(old(tagCache.Entries()), CacheCapacity, key, html))
          && (tagid.value !in repo.refs ==>
                && r == Err(CheckoutFailed(tagid.value))
                && repo.head == old(repo.head)
                && unchanged(tagCache))
    {
      var a := AppOrDefault(app);
      var key := CacheKey(a, tagid);
      if key in tagCache.table {
        var html := tagCache.Get(key);
        return Ok(html);
      }
      if tagid.None? {
        var tags := SortDescending(repo.tags);
        return Ok(render(TagList(tags)));
      }
      if a !in MacroDirMap {
        return Ok("");
      }
      var ok := repo.Checkout(tagid.value);
      if !ok {
        return Err(CheckoutFailed(tagid.value));
      }
      var macros := ListMacros(repo.refs[tagid.value], MacroDirMap[a]);
      var html := render(MacroList(macros));
      tagCache.Put(key, html);
      return Ok(html);
    }
  }

  /** Asking twice for the same application and tag checks out at most
      once and gives the same text both times. */
  method RepeatedIndexIsCached(s: GitTagMacros, tag: string, app: string)
    returns (first: Result<string, IndexError>, second: Result<string, IndexError>)
    requires s.Valid() && app in MacroDirMap && tag in s.repo.refs
    modifies s.tagCache, s.repo
    ensures s.Valid()
    ensures first.Ok? && second == first
    ensures |s.repo.checkouts| <= |old(s.repo.checkouts)| + 1
  {
    first := s.Index(Some(tag), Some(app));
    second := s.Index(Some(tag), Some(app));
  }

  /** Omitting the application is asking for "LUXSim". */
  lemma OmittedAppIsLuxSim(tagid: Option<string>)
    ensures CacheKey(AppOrDefault(None), tagid) == CacheKey("LUXSim", tagid)
    ensures AppOrDefault(None) in MacroDirMap && MacroDirMap[AppOrDefault(None)] == "BackgroundMacros"
  {
  }
}
