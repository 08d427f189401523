/**
 * The command-line side of the packer (lmpack/main.py): splitting comma-separated option values,
 * seeding the two matchers in a fixed order, choosing the output name, and assembling the
 * written document from the tree and the yielded blocks.
 */
module Cli {
  import opened Wrappers
  import opened Strings
  import opened Packer

  const DEFAULT_IGNORES: seq<string> := [
    ".git/*", ".vs/*", ".vscode/*", ".idea/*", "__pycache__/*", "node_modules/*",
    "*/obj/*", "*/bin/*", "*.lmpack.md", "*.lmpack.txt"]

  const DEFAULT_IGNORES_FILES: seq<string> := [".gitignore", ".dockerignore"]

  /** Files listed by name only, without their content. */
  const DEFAULT_CONTENT_IGNORES: seq<string> := [
    ".gitignore", ".dockerignore", ".gitattributes", ".editorconfig", "poetry.lock",
    "package-lock.json", "*.g.cs", "*.svg", "*.png", "*.jpg"]

  const DEFAULT_CONTENT_IGNORE_FILES: seq<string> := [".aiexclude", ".aiignore", ".cursorignore"]

  const DEFAULT_OUTPUT_NAME_FIXED: string := "context.lmpack.md"
  const DEFAULT_OUTPUT_NAME_TEMPLATE: string := "{repo_name}_context.lmpack.md"

  /** `raw.split(",")`: the pieces between commas, empty pieces included. */
  function CommaList(raw: string): (r: seq<string>)
    ensures |r| == CountChar(raw, ',') + 1
    ensures forall i :: 0 <= i < |r| ==> ',' !in r[i]
  {
    if raw == [] then [""]
    else
      var rest := CommaList(raw[1..]);
      if raw[0] == ',' then [""] + rest
      else [[raw[0]] + rest[0]] + rest[1..]
  }

  /** `",".join(parts)`. */
  function Join(parts: seq<string>): string
  {
    if parts == [] then ""
    else if |parts| == 1 then parts[0]
    else parts[0] + "," + Join(parts[1..])
  }

  /** Joining the pieces back with commas gives the original text. */
  lemma {:induction false} JoinCommaList(raw: string)
    ensures Join(CommaList(raw)) == raw
  {
    if raw != [] {
      var rest := CommaList(raw[1..]);
      JoinCommaList(raw[1..]);
      if raw[0] == ',' {
        assert CommaList(raw) == [""] + rest;
        assert raw == "," + raw[1..];
      } else {
        var r := CommaList(raw);
        assert r == [[raw[0]] + rest[0]] + rest[1..];
        if |rest| == 1 {
          assert raw[1..] == rest[0];
        } else {
          assert Join(rest) == rest[0] + "," + Join(rest[1..]);
          assert r[1..] == rest[1..];
        }
      }
    }
  }

  /** Splitting a comma-free piece followed by more text. */
  lemma {:induction false} CommaListPiece(p: string, tail: string)
    requires ',' !in p
    ensures CommaList(p + tail) == [p + CommaList(tail)[0]] + CommaList(tail)[1..]
  {
    if p != [] {
      CommaListPiece(p[1..], tail);
      assert (p + tail)[1..] == p[1..] + tail;
      assert (p + tail)[0] == p[0];
      assert [p[0]] + (p[1..] + CommaList(tail)[0]) == p + CommaList(tail)[0];
    } else {
      var r := CommaList(tail);
      assert p + tail == tail;
      assert r == [r[0]] + r[1..];
      assert p + r[0] == r[0];
    }
  }

  /** Splitting the comma-joined text of comma-free pieces gives the pieces back. */
  lemma {:induction false} CommaListJoin(parts: seq<string>)
    requires |parts| >= 1
    requires forall i :: 0 <= i < |parts| ==> ',' !in parts[i]
    ensures CommaList(Join(parts)) == parts
  {
    if |parts| == 1 {
      CommaListPiece(parts[0], "");
      assert parts[0] + "" == parts[0];
    } else {
      var rest := parts[1..];
      CommaListJoin(rest);
      var tail := "," + Join(rest);
      CommaListPiece(parts[0], tail);
      assert tail[1..] == Join(rest);
      assert CommaList(tail) == [""] + rest;
      assert parts[0] + tail == Join(parts);
      assert parts[0] + "" == parts[0];
    }
  }

  /** `Path.name`: the last component of a resolved path ("" for the root). */
  function BaseName(path: string): (r: string)
    ensures '/' !in r
    ensures EndsWith(path, r)
    ensures |r| < |path| ==> path[|path| - |r| - 1] == '/'
  {
    match LastIndexOf(path, '/')
    case None => path
    case Some(k) => path[k + 1..]
  }

  /**
   * What `file_ignores` is given, in order: the default patterns, the user's exclusions when
   * there are any, the ignore files of the index directory, those of the git root when found.
   */
  function FileIgnoreSources(ignorePatterns: Option<seq<string>>, indexPath: string, gitRoot: Option<string>)
    : (r: seq<PatternSource>)
    ensures var user := ignorePatterns.Some? && ignorePatterns.value != [];
      && |r| == 2 + (if user then 1 else 0) + (if gitRoot.Some? then 1 else 0)
      && r[0] == Literal(DEFAULT_IGNORES)
      && (user ==> r[1] == Literal(ignorePatterns.value))
      && r[if user then 2 else 1] == Scanned(indexPath, DEFAULT_IGNORES_FILES)
      && (gitRoot.Some? ==> r[|r| - 1] == Scanned(gitRoot.value, DEFAULT_IGNORES_FILES))
  {
    var user := if ignorePatterns.Some? && ignorePatterns.value != [] then [Literal(ignorePatterns.value)] else [];
    var git := if gitRoot.Some? then [Scanned(gitRoot.value, DEFAULT_IGNORES_FILES)] else [];
    [Literal(DEFAULT_IGNORES)] + user + [Scanned(indexPath, DEFAULT_IGNORES_FILES)] + git
  }

  /**
   * What `content_ignores` is given, in order: the default patterns, the content-ignore files
   * of the index directory, those of the git root when found.
   */
  function ContentIgnoreSources(indexPath: string, gitRoot: Option<string>): (r: seq<PatternSource>)
    ensures |r| == if gitRoot.Some? then 3 else 2
    ensures r[0] == Literal(DEFAULT_CONTENT_IGNORES)
    ensures r[1] == Scanned(indexPath, DEFAULT_CONTENT_IGNORE_FILES)
    ensures gitRoot.Some? ==> r[2] == Scanned(gitRoot.value, DEFAULT_CONTENT_IGNORE_FILES)
  {
    [Literal(DEFAULT_CONTENT_IGNORES), Scanned(indexPath, DEFAULT_CONTENT_IGNORE_FILES)]
    + if gitRoot.Some? then [Scanned(gitRoot.value, DEFAULT_CONTENT_IGNORE_FILES)] else []
  }

  /**
   * The output file name: the template formatted with the repository name (the git root's
   * name when found, else the index directory's) and the index directory's name, or the fixed
   * name when the template is empty. `format` stands for `str.format`.
   */
  function OutputName(template: string, indexPath: string, gitRoot: Option<string>,
                      format: (string, string, string) -> string): (r: string)
    ensures template == [] ==> r == DEFAULT_OUTPUT_NAME_FIXED
    ensures template != [] ==>
      r == format(template, BaseName(if gitRoot.Some? then gitRoot.value else indexPath), BaseName(indexPath))
  {
    if template == [] then DEFAULT_OUTPUT_NAME_FIXED
    else
      var repoName := if gitRoot.Some? then BaseName(gitRoot.value) else BaseName(indexPath);
      format(template, repoName, BaseName(indexPath))
  }

  /** The name is the last component whatever directory it is joined under. */
  lemma BaseNameJoin(dir: string, name: string)
    requires '/' !in name
    ensures BaseName(dir + "/" + name) == name
  {
    var path := dir + "/" + name;
    assert path[|dir|] == '/';
    assert path[|dir| + 1..] == name;
  }

  /** The default template is non-empty, so by default the name is always the formatted one. */
  lemma DefaultTemplateFormats(indexPath: string, gitRoot: Option<string>, format: (string, string, string) -> string)
    ensures OutputName(DEFAULT_OUTPUT_NAME_TEMPLATE, indexPath, gitRoot, format)
      == format(DEFAULT_OUTPUT_NAME_TEMPLATE, BaseName(if gitRoot.Some? then gitRoot.value else indexPath), BaseName(indexPath))
  {
    assert DEFAULT_OUTPUT_NAME_TEMPLATE[0] == '{';
  }

  const TREE_HEAD: string := "# Source Tree\n\n```\n"
  const TREE_TAIL: string := "\n```\n\n# File Contents\n\n"

  /** The first write: the tree in a fenced block under its heading, then the contents heading. */
  function DocumentHeader(tree: string): (r: string)
    ensures StartsWith(r, TREE_HEAD) && EndsWith(r, TREE_TAIL)
    ensures |r| == |TREE_HEAD| + |tree| + |TREE_TAIL|
    ensures r[|TREE_HEAD|..|r| - |TREE_TAIL|] == tree
  {
    Templates.Sandwich(TREE_HEAD, tree, TREE_TAIL);
    TREE_HEAD + tree + TREE_TAIL
  }

  /** The blocks written one after another, in order. */
  function Concat(blocks: seq<string>): (r: string)
    ensures blocks == [] ==> r == ""
    ensures blocks != [] ==> EndsWith(r, blocks[|blocks| - 1])
  {
    if blocks == [] then "" else Concat(blocks[..|blocks| - 1]) + blocks[|blocks| - 1]
  }

  lemma {:induction false} ConcatAppend(a: seq<string>, b: seq<string>)
    ensures Concat(a + b) == Concat(a) + Concat(b)
    decreases |b|
  {
    if b == [] {
      assert a + b == a;
    } else {
      var init := b[..|b| - 1];
      var last := b[|b| - 1];
      ConcatAppend(a, init);
      assert (a + b)[..|a + b| - 1] == a + init;
      assert (a + b)[|a + b| - 1] == last;
      calc {
        Concat(a + b);
        Concat(a + init) + last;
        (Concat(a) + Concat(init)) + last;
        Concat(a) + (Concat(init) + last);
        Concat(a) + Concat(b);
      }
    }
  }

  /**
   * Block `k` is written right after blocks 0..k-1: it sits in the written text at the offset
   * given by the lengths of the blocks before it.
   */
  lemma ConcatAt(blocks: seq<string>, k: nat)
    requires k < |blocks|
    ensures var at := |Concat(blocks[..k])|;
      && at + |blocks[k]| <= |Concat(blocks)|
      && Concat(blocks)[..at] == Concat(blocks[..k])
      && Concat(blocks)[at..at + |blocks[k]|] == blocks[k]
  {
    var pre := Concat(blocks[..k]);
    var post := blocks[k + 1..];
    assert blocks == blocks[..k] + ([blocks[k]] + post);
    ConcatAppend(blocks[..k], [blocks[k]] + post);
    ConcatAppend([blocks[k]], post);
    assert Concat([blocks[k]]) == blocks[k] by {
      assert [blocks[k]][..0] == [];
    }
    var all := pre + (blocks[k] + Concat(post));
    assert Concat(blocks) == all;
    assert all[..|pre|] == pre;
    assert all[|pre|..|pre| + |blocks[k]|] == blocks[k];
  }

  /** The matcher configuration `create_repo_context` gives the packer. */
  function CliConfig(ignorePatterns: Option<seq<string>>, indexPath: string, gitRoot: Option<string>): (cfg: Config)
    ensures cfg.includeMatcher == []
    ensures cfg.binaryTemplate && cfg.errorTemplate
    ensures cfg.fileIgnores == FileIgnoreSources(ignorePatterns, indexPath, gitRoot)
    ensures cfg.contentIgnores == ContentIgnoreSources(indexPath, gitRoot)
  {
    Config(FileIgnoreSources(ignorePatterns, indexPath, gitRoot), [],
           ContentIgnoreSources(indexPath, gitRoot), true, true)
  }

  /**
   * With the allow-list left empty, as the command line always leaves it, no file of the walk is
   * ever filtered by it and "include_patterns" stays at zero.
   */
  lemma NoAllowListFromCli(ignorePatterns: Option<seq<string>>, indexPath: string, gitRoot: Option<string>,
                           env: Env, walk: seq<FileRecord>)
    requires env.isEmpty([])
    ensures var os := Outcomes(CliConfig(ignorePatterns, indexPath, gitRoot), env, walk);
      && (forall i :: 0 <= i < |os| ==> !os[i].NotIncluded?)
      && Replay(ZERO, os).ignores[INCLUDE_PATTERNS] == 0
  {
    var cfg := CliConfig(ignorePatterns, indexPath, gitRoot);
    var os := Outcomes(cfg, env, walk);
    OutcomesInOrder(cfg, env, walk);
    ReplayCounts(ZERO, os);
    NoNotIncluded(os);
  }

  lemma {:induction false} NoNotIncluded(os: seq<Outcome>)
    requires forall i :: 0 <= i < |os| ==> !os[i].NotIncluded?
    ensures Count(os, KNotIncluded) == 0
  {
    if os != [] {
      NoNotIncluded(os[..|os| - 1]);
    }
  }

  /** The seeding calls of `create_repo_context` on the two matchers of a new packer, in source order. */
  method SeedMatchers(fileIgnores: PatternMatcher, contentIgnores: PatternMatcher,
                      ignorePatterns: Option<seq<string>>, indexPath: string, gitRoot: Option<string>)
    requires fileIgnores != contentIgnores
    requires fileIgnores.sources == [] && contentIgnores.sources == []
    modifies fileIgnores, contentIgnores
    ensures fileIgnores.sources == FileIgnoreSources(ignorePatterns, indexPath, gitRoot)
    ensures contentIgnores.sources == ContentIgnoreSources(indexPath, gitRoot)
  {
    fileIgnores.AddPatterns(DEFAULT_IGNORES);
    if ignorePatterns.Some? && ignorePatterns.value != [] {
      fileIgnores.AddPatterns(ignorePatterns.value);
    }
    contentIgnores.AddPatterns(DEFAULT_CONTENT_IGNORES);
    fileIgnores.ScanAddPatternFiles(indexPath, DEFAULT_IGNORES_FILES);
    if gitRoot.Some? {
      fileIgnores.ScanAddPatternFiles(gitRoot.value, DEFAULT_IGNORES_FILES);
    }
    contentIgnores.ScanAddPatternFiles(indexPath, DEFAULT_CONTENT_IGNORE_FILES);
    if gitRoot.Some? {
      contentIgnores.ScanAddPatternFiles(gitRoot.value, DEFAULT_CONTENT_IGNORE_FILES);
    }
  }

  /** The writes to the output file: the header, then each block as it is yielded. */
  method WriteDocument(tree: string, blocks: seq<string>) returns (document: string)
    ensures document == DocumentHeader(tree) + Concat(blocks)
  {
    document := TREE_HEAD + tree + TREE_TAIL;
    for j := 0 to |blocks|
      invariant document == DocumentHeader(tree) + Concat(blocks[..j])
    {
      assert blocks[..j + 1][..j] == blocks[..j];
      document := document + blocks[j];
    }
    assert blocks[..|blocks|] == blocks;
  }

  /**
   * `create_repo_context`: seeds the matchers of a new packer in the order of the source, names
   * the output, then writes the tree header followed by every block the walk yields. The
   * `--include` and `--gitignore` values are accepted and never used. `raised` reports an
   * exception escaping the walk; the document then holds what was written before it.
   */
  method CreateRepoContext(indexPath: string, outputNameTemplate: string, gitRoot: Option<string>,
                           includePatterns: Option<seq<string>>, ignorePatterns: Option<seq<string>>,
                           ignoreFiles: Option<seq<string>>, format: (string, string, string) -> string,
                           walk: seq<FileRecord>, env: Env)
    returns (packer: LmPacker, outputName: string, document: string, raised: bool)
    ensures packer.Cfg() == CliConfig(ignorePatterns, indexPath, gitRoot)
    ensures outputName == OutputName(outputNameTemplate, indexPath, gitRoot, format)
    ensures var os := Outcomes(packer.Cfg(), env, walk);
      && document == DocumentHeader(env.tree(packer.Cfg().fileIgnores)) + Concat(Emitted(os))
      && raised == Crashed(os)
      && Counts(packer.countIgnores, packer.countFiles) == Replay(ZERO, os)
  {
    packer := new LmPacker(indexPath, true, true);
    SeedMatchers(packer.fileIgnores, packer.contentIgnores, ignorePatterns, indexPath, gitRoot);
    outputName := OutputName(outputNameTemplate, indexPath, gitRoot, format);
    var tree := env.tree(packer.fileIgnores.sources);
    var blocks;
    blocks, raised := packer.IterFileContents(walk, env);
    document := WriteDocument(tree, blocks);
  }
}
