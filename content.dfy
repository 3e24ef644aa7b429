/** The pure parts of the documentation file-tree reader: the metadata strip,
    the category table, the classification of a checked-out tree into one
    project's documentation bag, and the package-name helpers. */
module Content {
  import opened Wrappers
  import Text

  // ----- File trees ------------------------------------------------------------

  /** A file read from disk: a leaf holds text, a directory its children. */
  datatype File = File(name: string, content: FileContent, isDir: bool)
  datatype FileContent = Leaf(text: string) | Children(files: seq<File>)

  /** A file without the `is_dir` flag. */
  datatype SimpleFile = SimpleFile(name: string, content: SimpleContent)
  datatype SimpleContent = SimpleLeaf(text: string) | SimpleChildren(files: seq<SimpleFile>)

  /** The reader sets `is_dir` exactly on nodes whose content is a list, at
      every level of the tree. */
  predicate WellFormed(f: File)
    decreases f
  {
    && f.isDir == f.content.Children?
    && (f.content.Children? ==> forall i :: 0 <= i < |f.content.files| ==> WellFormed(f.content.files[i]))
  }

  /** `strip_meta`: the same tree without `is_dir`. */
  function StripMeta(name: string, content: FileContent): (r: SimpleFile)
    decreases content, 1
    ensures r.name == name
    ensures content.Leaf? <==> r.content.SimpleLeaf?
    ensures content.Leaf? ==> r.content.text == content.text
    ensures content.Children? ==> |r.content.files| == |content.files|
    ensures content.Children? ==> forall i :: 0 <= i < |content.files| ==> r.content.files[i].name == content.files[i].name
  {
    match content
    case Leaf(text) => SimpleFile(name, SimpleLeaf(text))
    case Children(files) => SimpleFile(name, SimpleChildren(StripAll(files)))
  }

  /** `strip_meta` mapped over a list of files, in order. */
  function StripAll(files: seq<File>): (r: seq<SimpleFile>)
    decreases files, 0
    ensures |r| == |files|
    ensures forall i :: 0 <= i < |files| ==> r[i].name == files[i].name
  {
    if files == [] then [] else [StripMeta(files[0].name, files[0].content)] + StripAll(files[1..])
  }

  lemma {:induction false} StripAllIndex(files: seq<File>, i: nat)
    requires i < |files|
    ensures StripAll(files)[i] == StripMeta(files[i].name, files[i].content)
    decreases files
  {
    if i > 0 {
      StripAllIndex(files[1..], i - 1);
    }
  }

  /** The tree a well-formed reader would have produced for a stripped file. */
  function Restore(s: SimpleFile): (r: File)
    decreases s, 1
    ensures r.name == s.name && (r.isDir <==> s.content.SimpleChildren?)
  {
    match s.content
    case SimpleLeaf(text) => File(s.name, Leaf(text), false)
    case SimpleChildren(files) => File(s.name, Children(RestoreAll(files)), true)
  }

  function RestoreAll(files: seq<SimpleFile>): (r: seq<File>)
    decreases files, 0
    ensures |r| == |files|
  {
    if files == [] then [] else [Restore(files[0])] + RestoreAll(files[1..])
  }

  /** Stripping forgets nothing but `is_dir`: on well-formed trees it is undone
      by `Restore`. */
  lemma {:induction false} StripRestore(f: File)
    requires WellFormed(f)
    ensures Restore(StripMeta(f.name, f.content)) == f
    decreases f, 1
  {
    match f.content
    case Leaf(_) =>
    case Children(files) =>
      assert forall i :: 0 <= i < |files| ==> WellFormed(files[i]);
      StripRestoreAll(files);
  }

  lemma {:induction false} StripRestoreAll(files: seq<File>)
    requires forall i :: 0 <= i < |files| ==> WellFormed(files[i])
    ensures RestoreAll(StripAll(files)) == files
    decreases files, 0
  {
    if files != [] {
      StripRestore(files[0]);
      StripRestoreAll(files[1..]);
    }
  }

  /** And every stripped tree comes from a well-formed one. */
  lemma {:induction false} RestoreStrip(s: SimpleFile)
    ensures WellFormed(Restore(s))
    ensures StripMeta(Restore(s).name, Restore(s).content) == s
    decreases s, 1
  {
    match s.content
    case SimpleLeaf(_) =>
    case SimpleChildren(files) =>
      RestoreStripAll(files);
  }

  lemma {:induction false} RestoreStripAll(files: seq<SimpleFile>)
    ensures forall i :: 0 <= i < |files| ==> WellFormed(RestoreAll(files)[i])
    ensures StripAll(RestoreAll(files)) == files
    decreases files, 0
  {
    if files != [] {
      RestoreStrip(files[0]);
      RestoreStripAll(files[1..]);
      var r := RestoreAll(files);
      assert r == [Restore(files[0])] + RestoreAll(files[1..]);
      forall i | 0 <= i < |files|
        ensures WellFormed(r[i])
      {
        if i > 0 {
          assert r[i] == RestoreAll(files[1..])[i - 1];
        }
      }
    }
  }

  // ----- Categories ------------------------------------------------------------

  /** The six documentation categories. */
  datatype Category = Docs | Faq | Migrating | Blog | Tutorials | Examples

  function CategoryName(c: Category): string
  {
    match c
    case Docs => "docs"
    case Faq => "faq"
    case Migrating => "migrating"
    case Blog => "blog"
    case Tutorials => "tutorials"
    case Examples => "examples"
  }

  /** `doc_types`, in its order. */
  const DocTypes: seq<string> := ["docs", "faq", "migrating", "blog", "tutorials", "examples"]

  /** The category a directory name stands for, if any. */
  function ParseCategory(name: string): (r: Option<Category>)
    ensures r.Some? <==> name in DocTypes
    ensures r.Some? ==> CategoryName(r.value) == name
  {
    if name == "docs" then Some(Docs)
    else if name == "faq" then Some(Faq)
    else if name == "migrating" then Some(Migrating)
    else if name == "blog" then Some(Blog)
    else if name == "tutorials" then Some(Tutorials)
    else if name == "examples" then Some(Examples)
    else None
  }

  /** Every category is recognised by its own name, and `DocTypes` lists each
      category's name exactly once. */
  lemma CategoryRoundTrip(c: Category)
    ensures ParseCategory(CategoryName(c)) == Some(c)
    ensures CategoryName(c) in DocTypes
    ensures |DocTypes| == 6 && forall i, j :: 0 <= i < j < |DocTypes| ==> DocTypes[i] != DocTypes[j]
  {
  }

  /** An entry of the `docs` transformer: the file with `is_dir` dropped, but
      its content kept as read. */
  datatype Projected = Projected(name: string, content: FileContent)
  datatype Transformed = Entries(entries: seq<Projected>) | Undefined

  /** The `transformers` table. */
  function Transform(c: Category, name: string, content: seq<File>): (r: Transformed)
    decreases if c == Docs then 0 else 1
    ensures c in {Tutorials, Examples} <==> r.Undefined?
    ensures r.Entries? ==> |r.entries| == |content|
    ensures r.Entries? ==> forall i :: 0 <= i < |content| ==>
      r.entries[i] == Projected(content[i].name, content[i].content)
  {
    match c
    case Docs => Entries(seq(|content|, i requires 0 <= i < |content| => Projected(content[i].name, content[i].content)))
    case Faq => Transform(Docs, name, content)
    case Migrating => Transform(Docs, name, content)
    case Blog => Transform(Docs, name, content)
    case Tutorials => Undefined
    case Examples => Undefined
  }

  // ----- Classification --------------------------------------------------------

  type DocsBag = map<Category, seq<SimpleFile>>

  /** One grandchild under the docs directory: a recognised category with list
      content replaces its entry; anything else is skipped. */
  function CollectOne(bag: DocsBag, g: File): (r: DocsBag)
    ensures bag.Keys <= r.Keys
    ensures forall c :: c in r && (c !in bag || r[c] != bag[c]) ==> CategoryName(c) == g.name && g.content.Children?
  {
    var c := ParseCategory(g.name);
    if c.Some? && g.content.Children? then bag[c.value := StripAll(g.content.files)] else bag
  }

  /** The grandchildren, in order. */
  function Collect(bag: DocsBag, gs: seq<File>): (r: DocsBag)
    ensures bag.Keys <= r.Keys
    decreases |gs|
  {
    if gs == [] then bag else CollectOne(Collect(bag, gs[..|gs| - 1]), gs[|gs| - 1])
  }

  /** One child of the root: only a list-valued child named `docsPath`
      contributes. */
  function FromChild(bag: DocsBag, child: File, docsPath: string): (r: DocsBag)
    ensures bag.Keys <= r.Keys
    ensures child.name != docsPath || child.content.Leaf? ==> r == bag
  {
    if child.name == docsPath && child.content.Children? then Collect(bag, child.content.files) else bag
  }

  /** The children of the root, in order. */
  function FromChildren(bag: DocsBag, children: seq<File>, docsPath: string): (r: DocsBag)
    ensures bag.Keys <= r.Keys
    ensures (forall k :: 0 <= k < |children| ==> children[k].name != docsPath) ==> r == bag
    decreases |children|
  {
    if children == [] then bag
    else FromChild(FromChildren(bag, children[..|children| - 1], docsPath), children[|children| - 1], docsPath)
  }

  /** The `base_docs` bag of a tree. */
  function BaseDocs(file: File, docsPath: string): (r: DocsBag)
    ensures file.content.Children? && (forall k :: 0 <= k < |file.content.files| ==> file.content.files[k].name != docsPath) ==> r == map[]
  {
    if file.isDir && file.content.Children? then FromChildren(map[], file.content.files, docsPath) else map[]
  }

  /** `transform_files`: one `[project, base_docs]` pair; `pkgPath` is matched
      but contributes nothing. */
  method TransformFiles(file: File, pkgPath: string, docsPath: string, project: string)
    returns (pkgs: seq<(string, DocsBag)>)
    ensures pkgs == [(project, BaseDocs(file, docsPath))]
  {
    var baseDocs: DocsBag := map[];
    pkgs := [];
    if file.isDir && file.content.Children? {
      var children := file.content.files;
      var i := 0;
      while i < |children|
        invariant 0 <= i <= |children|
        invariant baseDocs == FromChildren(map[], children[..i], docsPath)
      {
        var child := children[i];
        ghost var before := baseDocs;
        if child.name == docsPath && child.content.Children? {
          var gs := child.content.files;
          var j := 0;
          while j < |gs|
            invariant 0 <= j <= |gs|
            invariant baseDocs == Collect(before, gs[..j])
          {
            var g := gs[j];
            var c := ParseCategory(g.name);
            if c.Some? && g.content.Children? {
              baseDocs := baseDocs[c.value := StripAll(g.content.files)];
            }
            assert gs[..j + 1][..j] == gs[..j];
            j := j + 1;
          }
          assert gs[..j] == gs;
        }
        if child.name == pkgPath {
        }
        assert children[..i + 1][..i] == children[..i];
        i := i + 1;
      }
      assert children[..i] == children;
    }
    pkgs := pkgs + [(project, baseDocs)];
  }

  // ----- Properties of the classification --------------------------------------

  /** A tree that is not a directory with list content yields an empty bag. */
  lemma NotADirectory(file: File, docsPath: string)
    requires !file.isDir || file.content.Leaf?
    ensures BaseDocs(file, docsPath) == map[]
  {
  }

  /** Grandchildren leave every category they do not name as it was. */
  lemma {:induction false} CollectKeeps(bag: DocsBag, gs: seq<File>, c: Category)
    requires forall k :: 0 <= k < |gs| ==> !(gs[k].name == CategoryName(c) && gs[k].content.Children?)
    ensures (c in Collect(bag, gs)) == (c in bag)
    ensures c in bag ==> Collect(bag, gs)[c] == bag[c]
    decreases |gs|
  {
    if gs != [] {
      var init := gs[..|gs| - 1];
      CollectKeeps(bag, init, c);
      CategoryRoundTrip(c);
    }
  }

  /** The last grandchild that names a category with list content decides that
      category's entry: later directories of the same name overwrite earlier
      ones. */
  lemma {:induction false} CollectLast(bag: DocsBag, gs: seq<File>, c: Category, j: nat)
    requires j < |gs| && gs[j].name == CategoryName(c) && gs[j].content.Children?
    requires forall k :: j < k < |gs| ==> !(gs[k].name == CategoryName(c) && gs[k].content.Children?)
    ensures c in Collect(bag, gs)
    ensures Collect(bag, gs)[c] == StripAll(gs[j].content.files)
    decreases |gs|
  {
    CategoryRoundTrip(c);
    var init := gs[..|gs| - 1];
    if j == |gs| - 1 {
      assert Collect(bag, gs) == CollectOne(Collect(bag, init), gs[j]);
    } else {
      CollectLast(bag, init, c, j);
      var last := gs[|gs| - 1];
      assert !(last.name == CategoryName(c) && last.content.Children?);
      if ParseCategory(last.name).Some? && last.content.Children? {
        assert ParseCategory(last.name).value != c;
      }
    }
  }

  /** Every key of the bag is a category named by some list-valued grandchild
      under a list-valued child called `docsPath`. */
  lemma {:induction false} CollectKeys(bag: DocsBag, gs: seq<File>, c: Category)
    requires c in Collect(bag, gs) && c !in bag
    ensures exists k :: 0 <= k < |gs| && gs[k].name == CategoryName(c) && gs[k].content.Children?
    decreases |gs|
  {
    var init := gs[..|gs| - 1];
    var last := gs[|gs| - 1];
    if c in Collect(bag, init) {
      CollectKeys(bag, init, c);
      var k :| 0 <= k < |init| && init[k].name == CategoryName(c) && init[k].content.Children?;
      assert gs[k] == init[k];
    } else {
      assert ParseCategory(last.name) == Some(c) && last.content.Children?;
      assert gs[|gs| - 1] == last;
    }
  }

  lemma {:induction false} BaseDocsKeys(children: seq<File>, docsPath: string, c: Category)
    requires c in FromChildren(map[], children, docsPath)
    ensures exists i, k :: (0 <= i < |children| && children[i].name == docsPath && children[i].content.Children?
      && 0 <= k < |children[i].content.files|
      && children[i].content.files[k].name == CategoryName(c) && children[i].content.files[k].content.Children?)
    decreases |children|
  {
    var init := children[..|children| - 1];
    var last := children[|children| - 1];
    var before := FromChildren(map[], init, docsPath);
    if c in before {
      BaseDocsKeys(init, docsPath, c);
      var i, k :| 0 <= i < |init| && init[i].name == docsPath && init[i].content.Children?
        && 0 <= k < |init[i].content.files|
        && init[i].content.files[k].name == CategoryName(c) && init[i].content.files[k].content.Children?;
      assert children[i] == init[i];
    } else {
      CollectKeys(before, last.content.files, c);
      assert children[|children| - 1] == last;
    }
  }

  // ----- Package names -----------------------------------------------------------

  /** The organisation scope removed from package names. */
  const Scope: string := "@sveltejs/"

  /** The ignore list with each name also given in its scoped form. */
  function ExpandIgnore(ignore: seq<string>): (r: seq<string>)
    ensures |r| == 2 * |ignore| && r[..|ignore|] == ignore
  {
    ignore + seq(|ignore|, i requires 0 <= i < |ignore| => Scope + ignore[i])
  }

  /** A name is ignored exactly when it, or its unscoped form, was listed. */
  lemma ExpandIgnoreMembers(ignore: seq<string>, x: string)
    ensures x in ExpandIgnore(ignore) <==>
      x in ignore || (|Scope| <= |x| && x[..|Scope|] == Scope && x[|Scope|..] in ignore)
  {
    var r := ExpandIgnore(ignore);
    if |Scope| <= |x| && x[..|Scope|] == Scope && x[|Scope|..] in ignore {
      var i :| 0 <= i < |ignore| && ignore[i] == x[|Scope|..];
      assert x == Scope + ignore[i];
      assert r[|ignore| + i] == x;
    }
    if x in r && x !in ignore {
      var k :| 0 <= k < |r| && r[k] == x;
      if k < |ignore| {
        assert r[k] == ignore[k];
      } else {
        var i := k - |ignore|;
        assert x == Scope + ignore[i];
        assert x[|Scope|..] == ignore[i];
      }
    }
  }

  /** The package name with a leading scope removed. */
  function StripScope(name: string): (r: string)
    ensures Text.OccursAt(name, Scope, 0) ==> r == name[|Scope|..]
    ensures !Text.OccursAt(name, Scope, 0) ==> r == name
  {
    if |Scope| <= |name| && name[..|Scope|] == Scope then name[|Scope|..] else name
  }

  /** Only a scope at the very start is removed, and only once. */
  lemma StripScopeOnce(p: string)
    ensures StripScope(Scope + p) == p
    ensures Scope + StripScope(Scope + p) == Scope + p
  {
  }

  /** A package's `[name, readme]` pair, or `false` when it could not be read. */
  type PackageEntry = Option<(string, string)>

  /** The packages kept: the readable ones whose (already unscoped) name is not
      ignored, in order. */
  function KeepPackages(entries: seq<PackageEntry>, ignore: seq<string>): (r: seq<(string, string)>)
    decreases |entries|
    ensures forall p :: p in r ==> Some(p) in entries && p.0 !in ExpandIgnore(ignore)
    ensures forall p :: Some(p) in entries && p.0 !in ExpandIgnore(ignore) ==> p in r
    ensures |r| <= |entries|
  {
    if entries == [] then []
    else
      var rest := KeepPackages(entries[1..], ignore);
      assert forall e :: e in entries[1..] ==> e in entries;
      assert forall e :: e in entries ==> e == entries[0] || e in entries[1..];
      if entries[0].Some? && entries[0].value.0 !in ExpandIgnore(ignore) then [entries[0].value] + rest else rest
  }

  /** One entry is kept exactly when it was read and its name is not ignored. */
  lemma KeepOne(e: PackageEntry, ignore: seq<string>)
    ensures KeepPackages([e], ignore) == if e.Some? && e.value.0 !in ExpandIgnore(ignore) then [e.value] else []
  {
    assert [e][1..] == [];
  }

  /** The filter works entry by entry: the packages kept from two runs of
      entries are those kept from each, in order, with repeats kept. */
  lemma {:induction false} KeepPackagesAppend(a: seq<PackageEntry>, b: seq<PackageEntry>, ignore: seq<string>)
    ensures KeepPackages(a + b, ignore) == KeepPackages(a, ignore) + KeepPackages(b, ignore)
    decreases |a|
  {
    if a == [] {
      assert a + b == b;
    } else {
      assert (a + b)[1..] == a[1..] + b;
      KeepPackagesAppend(a[1..], b, ignore);
    }
  }

  /** Ignoring a package by its bare name drops it whatever its scope was,
      since names are unscoped before the comparison. */
  lemma IgnoredByBareName(entries: seq<PackageEntry>, ignore: seq<string>, scoped: string, readme: string)
    requires StripScope(scoped) in ignore
    ensures (StripScope(scoped), readme) !in KeepPackages(entries, ignore)
  {
  }
}
