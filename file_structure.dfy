/**
 * The directory-tree renderer of E7A/common/utils/generate_file_structure.py.
 * It walks the tree, skips every directory whose path contains one of the
 * ignore patterns, and prints each kept directory as `name/`, indented four
 * spaces per separator below the root, followed by its files one level deeper.
 *
 * The walk is a parameter: the `(root, dirs, files)` triples `os.walk` yields,
 * in order. Paths use `/` as the separator. The listing is described first as a
 * sequence of `TreeLine`s (which directory or file each line shows) and then
 * printed line by line with `Render`.
 */
module FileStructure {
  import opened Wrappers
  import opened Strings

  const Sep: char := '/'

  /** One triple of the walk. */
  datatype WalkEntry = WalkEntry(root: string, dirs: seq<string>, files: seq<string>)

  /** What a line of the listing shows: a kept directory, or one file of it. */
  datatype TreeLine = DirLine(root: string) | FileLine(root: string, name: string)

  /** `should_ignore(path, ignore_dirs)`: the patterns are tried in order, stopping at the first that occurs. */
  function ShouldIgnore(path: string, ignores: seq<string>): (r: bool)
    ensures |ignores| == 0 ==> !r
  {
    if |ignores| == 0 then false
    else if Contains(path, ignores[0]) then true
    else ShouldIgnore(path, ignores[1..])
  }

  /** A path is ignored iff some pattern is a substring of it. */
  lemma {:induction false} ShouldIgnoreIff(path: string, ignores: seq<string>)
    ensures ShouldIgnore(path, ignores) <==> exists i :: 0 <= i < |ignores| && Contains(path, ignores[i])
  {
    if |ignores| > 0 && !Contains(path, ignores[0]) {
      ShouldIgnoreIff(path, ignores[1..]);
      assert forall i :: 1 <= i < |ignores| ==> ignores[i] == ignores[1..][i - 1];
      if ShouldIgnore(path, ignores) {
        var i :| 0 <= i < |ignores[1..]| && Contains(path, ignores[1..][i]);
        assert Contains(path, ignores[i + 1]);
      }
    }
  }

  /** `ignore_dirs or []`. */
  function Ignores(ignoreDirs: Option<seq<string>>): (r: seq<string>)
    ensures ignoreDirs.None? ==> r == []
    ensures ignoreDirs.Some? ==> r == ignoreDirs.value
  {
    if ignoreDirs.Some? then ignoreDirs.value else []
  }

  /** The nesting level of a directory: separators left once every occurrence of the root path is removed. */
  function Level(rootDir: string, root: string): (r: nat) {
    CountChar(RemoveAll(root, rootDir), Sep)
  }

  /** The printed line: four spaces per level, then the directory's base name and `/`, or the file name one level deeper. */
  function Render(rootDir: string, line: TreeLine): (text: string) {
    match line
    case DirLine(root) => Spaces(4 * Level(rootDir, root)) + Basename(root) + "/"
    case FileLine(root, name) => Spaces(4 * (Level(rootDir, root) + 1)) + name
  }

  function RenderAll(rootDir: string, lines: seq<TreeLine>): (r: seq<string>)
    ensures |r| == |lines|
  {
    if |lines| == 0 then [] else RenderAll(rootDir, lines[..|lines| - 1]) + [Render(rootDir, lines[|lines| - 1])]
  }

  /** The lines of a kept directory's files, in walk order. */
  function FileLines(root: string, files: seq<string>): (r: seq<TreeLine>)
    ensures |r| == |files|
  {
    if |files| == 0 then [] else FileLines(root, files[..|files| - 1]) + [FileLine(root, files[|files| - 1])]
  }

  /** The lines one walk entry contributes: none when ignored, else its directory and then its files. */
  function EntryLines(ignores: seq<string>, e: WalkEntry): (r: seq<TreeLine>)
    ensures ShouldIgnore(e.root, ignores) ==> r == []
    ensures !ShouldIgnore(e.root, ignores) ==> |r| == 1 + |e.files| && r[0] == DirLine(e.root)
  {
    if ShouldIgnore(e.root, ignores) then [] else [DirLine(e.root)] + FileLines(e.root, e.files)
  }

  /** Each file line of a kept entry shows that entry's file, in walk order. */
  lemma {:induction false} FileLinesShowFiles(root: string, files: seq<string>)
    ensures forall j :: 0 <= j < |files| ==> FileLines(root, files)[j] == FileLine(root, files[j])
  {
    if |files| > 0 {
      var init := files[..|files| - 1];
      FileLinesShowFiles(root, init);
      assert forall j :: 0 <= j < |init| ==> init[j] == files[j];
    }
  }

  /** The `file_structure` list after the walk entries `walk`. */
  function TreeLines(ignores: seq<string>, walk: seq<WalkEntry>): (lines: seq<TreeLine>) {
    if |walk| == 0 then []
    else TreeLines(ignores, walk[..|walk| - 1]) + EntryLines(ignores, walk[|walk| - 1])
  }

  /** `generate_file_structure(root_dir, ignore_dirs)` over the walk `walk`. */
  method GenerateFileStructure(rootDir: string, ignoreDirs: Option<seq<string>>, walk: seq<WalkEntry>)
    returns (s: string)
    ensures s == Join("\n", RenderAll(rootDir, TreeLines(Ignores(ignoreDirs), walk)))
  {
    var ignores := if ignoreDirs.Some? then ignoreDirs.value else [];
    var lines: seq<string> := [];
    for k := 0 to |walk|
      invariant lines == RenderAll(rootDir, TreeLines(ignores, walk[..k]))
    {
      var e := walk[k];
      RenderStep(rootDir, ignores, walk, k);
      if !ShouldIgnore(e.root, ignores) {
        var level := CountChar(RemoveAll(e.root, rootDir), Sep);
        RenderKeptEntry(rootDir, ignores, e);
        Assoc(lines, [Spaces(4 * level) + Basename(e.root) + "/"], RenderAll(rootDir, FileLines(e.root, e.files)));
        lines := AddFiles(lines + [Spaces(4 * level) + Basename(e.root) + "/"], rootDir, e.root, level, e.files);
      } else {
        AppendEmpty(lines);
      }
    }
    TakeAll(walk);
    s := Join("\n", lines);
  }

  /** The inner loop of `generate_file_structure`: one line per file, one level below its directory. */
  method AddFiles(lines: seq<string>, rootDir: string, root: string, level: nat, files: seq<string>)
    returns (r: seq<string>)
    requires level == Level(rootDir, root)
    ensures r == lines + RenderAll(rootDir, FileLines(root, files))
  {
    r := lines;
    var subindent := Spaces(4 * (level + 1));
    for j := 0 to |files|
      invariant r == lines + RenderAll(rootDir, FileLines(root, files[..j]))
    {
      AddFileStep(lines, rootDir, root, level, files, j);
      r := r + [subindent + files[j]];
    }
    TakeAll(files);
  }

  lemma Assoc<T>(x: seq<T>, y: seq<T>, z: seq<T>)
    ensures (x + y) + z == x + (y + z)
  {
  }

  lemma AppendEmpty<T>(x: seq<T>)
    ensures x + [] == x
  {
  }

  lemma TakeAll<T>(x: seq<T>)
    ensures x[..|x|] == x
  {
  }

  lemma SnocSplit<T>(s: seq<T>)
    requires |s| > 0
    ensures s == s[..|s| - 1] + [s[|s| - 1]]
  {
  }

  lemma ConsSplit<T>(s: seq<T>)
    requires |s| > 0
    ensures s == [s[0]] + s[1..]
  {
  }

  /** One step of the outer loop: the printed listing grows by the printed lines of the next walk entry. */
  lemma RenderStep(rootDir: string, ignores: seq<string>, walk: seq<WalkEntry>, k: nat)
    requires k < |walk|
    ensures RenderAll(rootDir, TreeLines(ignores, walk[..k + 1])) ==
      RenderAll(rootDir, TreeLines(ignores, walk[..k])) + RenderAll(rootDir, EntryLines(ignores, walk[k]))
  {
    TreeLinesStep(ignores, walk, k);
    RenderAllAppend(rootDir, TreeLines(ignores, walk[..k]), EntryLines(ignores, walk[k]));
  }

  /** One step of the inner loop: the printed file lines grow by the next file, one level below its directory. */
  lemma RenderFileStep(rootDir: string, root: string, files: seq<string>, j: nat)
    requires j < |files|
    ensures RenderAll(rootDir, FileLines(root, files[..j + 1])) ==
      RenderAll(rootDir, FileLines(root, files[..j])) + [Spaces(4 * (Level(rootDir, root) + 1)) + files[j]]
  {
    FileLinesStep(root, files, j);
    var prefix := FileLines(root, files[..j]);
    SnocSplit(prefix + [FileLine(root, files[j])]);
    assert (prefix + [FileLine(root, files[j])])[..|prefix|] == prefix;
  }

  lemma AddFileStep(lines: seq<string>, rootDir: string, root: string, level: nat, files: seq<string>, j: nat)
    requires level == Level(rootDir, root) && j < |files|
    ensures lines + RenderAll(rootDir, FileLines(root, files[..j])) + [Spaces(4 * (level + 1)) + files[j]] ==
      lines + RenderAll(rootDir, FileLines(root, files[..j + 1]))
  {
    RenderFileStep(rootDir, root, files, j);
    Assoc(lines, RenderAll(rootDir, FileLines(root, files[..j])), [Spaces(4 * (level + 1)) + files[j]]);
  }

  /** A kept directory prints as its own line followed by its file lines. */
  lemma RenderKeptEntry(rootDir: string, ignores: seq<string>, e: WalkEntry)
    requires !ShouldIgnore(e.root, ignores)
    ensures RenderAll(rootDir, EntryLines(ignores, e)) ==
      [Spaces(4 * Level(rootDir, e.root)) + Basename(e.root) + "/"] + RenderAll(rootDir, FileLines(e.root, e.files))
  {
    var dir := [DirLine(e.root)];
    RenderAllAppend(rootDir, dir, FileLines(e.root, e.files));
    assert dir[..0] == [];
  }

  lemma TreeLinesStep(ignores: seq<string>, walk: seq<WalkEntry>, k: nat)
    requires k < |walk|
    ensures TreeLines(ignores, walk[..k + 1]) == TreeLines(ignores, walk[..k]) + EntryLines(ignores, walk[k])
  {
    assert walk[..k + 1][..k] == walk[..k];
  }

  lemma FileLinesStep(root: string, files: seq<string>, j: nat)
    requires j < |files|
    ensures FileLines(root, files[..j + 1]) == FileLines(root, files[..j]) + [FileLine(root, files[j])]
  {
    assert files[..j + 1][..j] == files[..j];
  }

  /** Printing is line by line: the printed listing of a concatenation is the concatenation of the printed listings. */
  lemma {:induction false} RenderAllAppend(rootDir: string, a: seq<TreeLine>, b: seq<TreeLine>)
    ensures RenderAll(rootDir, a + b) == RenderAll(rootDir, a) + RenderAll(rootDir, b)
  {
    if |b| == 0 {
      assert a + b == a;
    } else {
      var b' := b[..|b| - 1];
      assert (a + b)[..|a + b| - 1] == a + b';
      assert (a + b)[|a + b| - 1] == b[|b| - 1];
      RenderAllAppend(rootDir, a, b');
    }
  }

  /** The `i`-th printed line is the `i`-th line of the listing, printed. */
  lemma {:induction false} RenderAllIndex(rootDir: string, lines: seq<TreeLine>)
    ensures forall i :: 0 <= i < |lines| ==> RenderAll(rootDir, lines)[i] == Render(rootDir, lines[i])
  {
    if |lines| > 0 {
      var init := lines[..|lines| - 1];
      RenderAllIndex(rootDir, init);
      assert forall i :: 0 <= i < |init| ==> init[i] == lines[i];
    }
  }

  /** The walk is processed entry by entry: the listing of a concatenated walk is the concatenation of listings. */
  lemma {:induction false} TreeLinesAppend(ignores: seq<string>, a: seq<WalkEntry>, b: seq<WalkEntry>)
    ensures TreeLines(ignores, a + b) == TreeLines(ignores, a) + TreeLines(ignores, b)
  {
    if |b| == 0 {
      assert a + b == a;
    } else {
      var b', last := b[..|b| - 1], b[|b| - 1];
      TreeLinesAppend(ignores, a, b');
      TreeLinesSnoc(ignores, b', last);
      TreeLinesSnoc(ignores, a + b', last);
      SnocSplit(b);
      Assoc(a, b', [last]);
      Assoc(TreeLines(ignores, a), TreeLines(ignores, b'), EntryLines(ignores, last));
    }
  }

  lemma TreeLinesSnoc(ignores: seq<string>, walk: seq<WalkEntry>, e: WalkEntry)
    ensures TreeLines(ignores, walk + [e]) == TreeLines(ignores, walk) + EntryLines(ignores, e)
  {
    assert (walk + [e])[..|walk|] == walk;
  }

  /** The walk with the ignored directories taken out. */
  function Kept(ignores: seq<string>, walk: seq<WalkEntry>): (r: seq<WalkEntry>)
    ensures |r| <= |walk|
  {
    if |walk| == 0 then []
    else
      var last := walk[|walk| - 1];
      Kept(ignores, walk[..|walk| - 1]) + (if ShouldIgnore(last.root, ignores) then [] else [last])
  }

  /** Ignored directories contribute no lines: the listing depends only on the kept ones. */
  lemma {:induction false} IgnoredContributeNothing(ignores: seq<string>, walk: seq<WalkEntry>)
    ensures TreeLines(ignores, walk) == TreeLines(ignores, Kept(ignores, walk))
  {
    if |walk| > 0 {
      var init := walk[..|walk| - 1];
      var last := walk[|walk| - 1];
      IgnoredContributeNothing(ignores, init);
      var kept := Kept(ignores, init);
      if ShouldIgnore(last.root, ignores) {
        assert Kept(ignores, walk) == kept + [] == kept;
        assert TreeLines(ignores, walk) == TreeLines(ignores, init) + [];
      } else {
        var k := kept + [last];
        assert Kept(ignores, walk) == k;
        assert k[..|k| - 1] == kept && k[|k| - 1] == last;
        assert TreeLines(ignores, k) == TreeLines(ignores, kept) + EntryLines(ignores, last);
      }
    }
  }

  /** The number of lines a walk produces: one per kept directory plus one per file in it. */
  function LineCount(ignores: seq<string>, walk: seq<WalkEntry>): (r: nat) {
    if |walk| == 0 then 0
    else
      var last := walk[|walk| - 1];
      LineCount(ignores, walk[..|walk| - 1]) + (if ShouldIgnore(last.root, ignores) then 0 else 1 + |last.files|)
  }

  lemma {:induction false} TreeLinesCount(ignores: seq<string>, walk: seq<WalkEntry>)
    ensures |TreeLines(ignores, walk)| == LineCount(ignores, walk)
  {
    if |walk| > 0 {
      TreeLinesCount(ignores, walk[..|walk| - 1]);
    }
  }

  lemma {:induction false} RemoveAllSelf(p: string)
    ensures RemoveAll(p, p) == ""
  {
    if |p| > 0 {
      assert IsPrefix(p, p);
      assert p[|p|..] == "";
    }
  }

  /** A kept first directory of the walk is the first line of the listing. */
  lemma ListingStartsWithFirstDir(ignores: seq<string>, walk: seq<WalkEntry>)
    requires |walk| > 0 && !ShouldIgnore(walk[0].root, ignores)
    ensures |TreeLines(ignores, walk)| > 0 && TreeLines(ignores, walk)[0] == DirLine(walk[0].root)
  {
    ConsSplit(walk);
    TreeLinesAppend(ignores, [walk[0]], walk[1..]);
    TreeLinesSnoc(ignores, [], walk[0]);
    assert [] + [walk[0]] == [walk[0]];
  }

  /** The walk starts at the root itself, which prints unindented as its own base name. */
  lemma RootLineFirst(rootDir: string, ignores: seq<string>, walk: seq<WalkEntry>)
    requires |walk| > 0 && walk[0].root == rootDir && !ShouldIgnore(rootDir, ignores)
    ensures |TreeLines(ignores, walk)| > 0
    ensures RenderAll(rootDir, TreeLines(ignores, walk))[0] == Basename(rootDir) + "/"
  {
    var lines := TreeLines(ignores, walk);
    ListingStartsWithFirstDir(ignores, walk);
    RenderAllIndex(rootDir, lines);
    RootPrintsUnindented(rootDir);
  }

  lemma RootPrintsUnindented(rootDir: string)
    ensures Render(rootDir, DirLine(rootDir)) == Basename(rootDir) + "/"
  {
    RemoveAllSelf(rootDir);
    assert Level(rootDir, rootDir) == 0;
    assert Spaces(0) == "";
  }

  lemma {:induction false} CountCharAppend(a: string, b: string, c: char)
    ensures CountChar(a + b, c) == CountChar(a, c) + CountChar(b, c)
  {
    if |a| > 0 {
      assert (a + b)[1..] == a[1..] + b;
      CountCharAppend(a[1..], b, c);
    } else {
      assert a + b == b;
    }
  }

  lemma {:induction false} CountCharAbsent(s: string, c: char)
    requires forall i :: 0 <= i < |s| ==> s[i] != c
    ensures CountChar(s, c) == 0
  {
    if |s| > 0 {
      CountCharAbsent(s[1..], c);
    }
  }

  /** Lines are separated, not terminated: with no newline inside a line, the text has one fewer newline than lines. */
  lemma {:induction false} NewlinesBetweenLines(lines: seq<string>)
    requires |lines| > 0
    requires forall i, j :: 0 <= i < |lines| && 0 <= j < |lines[i]| ==> lines[i][j] != '\n'
    ensures CountChar(Join("\n", lines), '\n') == |lines| - 1
  {
    CountCharAbsent(lines[0], '\n');
    if |lines| > 1 {
      NewlinesBetweenLines(lines[1..]);
      CountCharAppend(lines[0] + "\n", Join("\n", lines[1..]), '\n');
      CountCharAppend(lines[0], "\n", '\n');
    }
  }
}
