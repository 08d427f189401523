/**
 * `LmPacker.iter_file_contents` (lmpack/lm_packer.py): every file of the walk is counted as
 * processed and then goes through a fixed order of checks (path exclusion, the include
 * allow-list when it is non-empty, content suppression, the binary sniff, the text read),
 * the first decisive one fixing whether a block is yielded and which counters move.
 *
 * The pattern matchers live in a module that is not part of this model. A matcher is modelled
 * as the ordered list of what was added to it; its verdicts come from the collaborator
 * `Env.matches`, and `len(matcher)` being zero from `Env.isEmpty`.
 */
module Packer {
  import opened Wrappers
  import opened Strings
  import opened BinarySniff
  import opened Templates

  // Keys of the two counter dictionaries.
  const PROCESSED: string := "processed"
  const INCLUDED: string := "included"
  const INCLUDED_NO_CONTENT: string := "included_no_content"
  const DEFAULT: string := "default"
  const GITIGNORE: string := "gitignore"
  const INCLUDE_PATTERNS: string := "include_patterns"

  /** One addition to a matcher: literal pattern lines, or the pattern files scanned in a directory. */
  datatype PatternSource =
    | Literal(patterns: seq<string>)
    | Scanned(dir: string, fileNames: seq<string>)

  /** The collaborators the packer calls but whose code is not part of this model. */
  datatype Env = Env(
    matches: (seq<PatternSource>, string) -> bool,   // FilePatternMatcher.is_match
    isEmpty: seq<PatternSource> -> bool,             // len(matcher) == 0
    display: string -> string,                       // display_path_normalizer
    language: string -> string,                      // formatting.get_codeblock_language
    tree: seq<PatternSource> -> string)              // create_ascii_tree under file_ignores

  /** One file as the walk finds it, with the answers of the file system and libraries. */
  datatype FileRecord = FileRecord(
    name: string,                     // the entry name listed by os.walk
    relPath: string,                  // resolved path relative to the index root
    mime: Option<string>,             // mimetypes.guess_type(...)[0]
    raw: Option<seq<byte>>,           // the bytes the sniff can read; None when open raises
    size: nat,                        // os.path.getsize
    text: Result<string, string>)     // the utf-8-sig read, or str() of its exception

  /** What the packer holds while walking: its three matchers and which templates are set. */
  datatype Config = Config(
    fileIgnores: seq<PatternSource>,
    includeMatcher: seq<PatternSource>,
    contentIgnores: seq<PatternSource>,
    binaryTemplate: bool,             // file_binary_content_template is not None
    errorTemplate: bool)              // file_error_template is not None

  /** The two counter dictionaries, COUNT_IGNORES and COUNT_FILES. */
  datatype Counts = Counts(ignores: map<string, nat>, files: map<string, nat>)

  predicate HasKeys(c: Counts)
  {
    && DEFAULT in c.ignores && GITIGNORE in c.ignores && INCLUDE_PATTERNS in c.ignores
    && PROCESSED in c.files && INCLUDED in c.files && INCLUDED_NO_CONTENT in c.files
  }

  const ZERO: Counts := Counts(
    map[DEFAULT := 0, GITIGNORE := 0, INCLUDE_PATTERNS := 0],
    map[PROCESSED := 0, INCLUDED := 0, INCLUDED_NO_CONTENT := 0])

  /** The keys of each dictionary are distinct strings. */
  lemma KeysDistinct()
    ensures PROCESSED != INCLUDED && PROCESSED != INCLUDED_NO_CONTENT && INCLUDED != INCLUDED_NO_CONTENT
    ensures DEFAULT != GITIGNORE && DEFAULT != INCLUDE_PATTERNS && GITIGNORE != INCLUDE_PATTERNS
  {
    assert |PROCESSED| == 9 && |INCLUDED| == 8 && |INCLUDED_NO_CONTENT| == 19;
    assert |DEFAULT| == 7 && |GITIGNORE| == 9 && |INCLUDE_PATTERNS| == 16;
  }

  /** `d[k] += 1` on a counter dictionary. */
  function Inc(m: map<string, nat>, k: string): (r: map<string, nat>)
    requires k in m
    ensures r.Keys == m.Keys && r[k] == m[k] + 1
    ensures forall j :: j in m && j != k ==> r[j] == m[j]
  {
    m[k := m[k] + 1]
  }

  /** How the handling of one file ends. */
  datatype Outcome =
    | PathExcluded          // file_ignores matched
    | NotIncluded           // the include allow-list is non-empty and did not match
    | ContentIgnored        // content_ignores matched: counted as included, nothing yielded
    | BinaryDropped         // binary, and no binary template is set
    | Shown(block: Block)   // one block is yielded
    | Crash                 // an exception escapes and ends the walk

  /** The decision for one file, checks in the order the source makes them. */
  function Classify(cfg: Config, env: Env, f: FileRecord): (o: Outcome)
    ensures o.Shown? ==> !o.block.NoContent?
    ensures o.Shown? ==> o.block.path == env.display(f.relPath)
    ensures env.matches(cfg.fileIgnores, f.relPath) <==> o.PathExcluded?
  {
    if env.matches(cfg.fileIgnores, f.relPath) then PathExcluded
    else if !env.isEmpty(cfg.includeMatcher) && !env.matches(cfg.includeMatcher, f.relPath) then NotIncluded
    else if env.matches(cfg.contentIgnores, f.relPath) then ContentIgnored
    else ClassifyContent(cfg, env, f)
  }

  /** The code-block language label for a file name: get_codeblock_language of its lower-cased extension. */
  function Syntax(env: Env, name: string): string
  {
    env.language(Lower(Extension(name)))
  }

  /** The decision for a file that passed the three matcher checks: the sniff, then the read. */
  function ClassifyContent(cfg: Config, env: Env, f: FileRecord): (o: Outcome)
    ensures o.BinaryDropped? || o.Shown? || o.Crash?
    ensures o.Shown? ==> !o.block.NoContent? && o.block.path == env.display(f.relPath)
  {
    var disp := env.display(f.relPath);
    var syntax := Syntax(env, f.name);
    match IsBinary(f.mime, f.raw)
    case None => Crash
    case Some(true) => if cfg.binaryTemplate then Shown(Binary(disp, f.size)) else BinaryDropped
    case Some(false) =>
      match f.text
      case Success(content) => Shown(Full(disp, syntax, content))
      case Failure(error) => if cfg.errorTemplate then Shown(Failed(disp, error)) else Crash
  }

  /** The counter increments for one file. */
  function Bump(c: Counts, o: Outcome): (r: Counts)
    requires HasKeys(c)
    ensures HasKeys(r)
    ensures r.files[PROCESSED] == c.files[PROCESSED] + 1
    ensures r.ignores[GITIGNORE] == c.ignores[GITIGNORE]
  {
    var c1 := c.(files := Inc(c.files, PROCESSED));
    match o
    case PathExcluded => c1.(ignores := Inc(c1.ignores, DEFAULT))
    case NotIncluded => c1.(ignores := Inc(c1.ignores, INCLUDE_PATTERNS))
    case ContentIgnored => c1.(files := Inc(Inc(c1.files, INCLUDED_NO_CONTENT), INCLUDED))
    case Shown(b) => if b.Failed? then c1 else c1.(files := Inc(c1.files, INCLUDED))
    case BinaryDropped => c1
    case Crash => c1
  }

  /** What is yielded for one file. */
  function Emit(o: Outcome): (r: seq<string>)
    ensures |r| <= 1
    ensures |r| == 1 <==> o.Shown?
  {
    if o.Shown? then [Render(o.block)] else []
  }

  /**
   * The outcomes of the files the walk handles, in walk order: every file up to and including
   * the first one whose handling raises.
   */
  function Outcomes(cfg: Config, env: Env, walk: seq<FileRecord>): (os: seq<Outcome>)
    ensures |os| <= |walk|
    ensures walk != [] ==> |os| >= 1 && os[0] == Classify(cfg, env, walk[0])
    decreases |walk|
  {
    if walk == [] then []
    else
      var o := Classify(cfg, env, walk[0]);
      if o.Crash? then [o] else [o] + Outcomes(cfg, env, walk[1..])
  }

  /**
   * The walk handles the files in order, each by its own classification, and stops only after
   * the first file whose handling raises.
   */
  lemma {:induction false} OutcomesInOrder(cfg: Config, env: Env, walk: seq<FileRecord>)
    ensures var os := Outcomes(cfg, env, walk);
      && |os| <= |walk|
      && (forall i :: 0 <= i < |os| ==> os[i] == Classify(cfg, env, walk[i]))
      && (forall i :: 0 <= i < |os| - 1 ==> !os[i].Crash?)
      && (|os| < |walk| ==> Crashed(os))
    decreases |walk|
  {
    if walk != [] {
      var o := Classify(cfg, env, walk[0]);
      if !o.Crash? {
        OutcomesInOrder(cfg, env, walk[1..]);
        var rest := Outcomes(cfg, env, walk[1..]);
        var os := Outcomes(cfg, env, walk);
        assert os == [o] + rest;
        forall i | 0 <= i < |os|
          ensures os[i] == Classify(cfg, env, walk[i])
        {
          if i > 0 {
            assert os[i] == rest[i - 1];
            assert walk[1..][i - 1] == walk[i];
          }
        }
      }
    }
  }

  predicate Crashed(os: seq<Outcome>)
  {
    |os| > 0 && os[|os| - 1].Crash?
  }

  /** The counters after the given outcomes, applied in order. */
  function Replay(c: Counts, os: seq<Outcome>): (r: Counts)
    requires HasKeys(c)
    ensures HasKeys(r)
    ensures r.files[PROCESSED] == c.files[PROCESSED] + |os|
    ensures r.ignores[GITIGNORE] == c.ignores[GITIGNORE]
  {
    if os == [] then c else Bump(Replay(c, os[..|os| - 1]), os[|os| - 1])
  }

  /** The blocks yielded for the given outcomes, in order. */
  function Emitted(os: seq<Outcome>): (r: seq<string>)
    ensures |r| <= |os|
  {
    if os == [] then [] else Emitted(os[..|os| - 1]) + Emit(os[|os| - 1])
  }

  lemma ReplaySnoc(c: Counts, os: seq<Outcome>, o: Outcome)
    requires HasKeys(c)
    ensures Replay(c, os + [o]) == Bump(Replay(c, os), o)
    ensures Emitted(os + [o]) == Emitted(os) + Emit(o)
    ensures Crashed(os + [o]) == o.Crash?
  {
    assert (os + [o])[..|os|] == os;
  }

  /** Handling file `i` extends the outcomes handled so far by its own, and stops after a crash. */
  lemma OutcomesStep(cfg: Config, env: Env, walk: seq<FileRecord>, i: nat, done: seq<Outcome>)
    requires i < |walk|
    requires Outcomes(cfg, env, walk) == done + Outcomes(cfg, env, walk[i..])
    ensures var o := Classify(cfg, env, walk[i]);
      if o.Crash? then Outcomes(cfg, env, walk) == done + [o]
      else Outcomes(cfg, env, walk) == (done + [o]) + Outcomes(cfg, env, walk[i + 1..])
  {
    assert walk[i..][1..] == walk[i + 1..];
    var o := Classify(cfg, env, walk[i]);
    if !o.Crash? {
      assert done + ([o] + Outcomes(cfg, env, walk[i + 1..])) == (done + [o]) + Outcomes(cfg, env, walk[i + 1..]);
    }
  }

  /** The kinds of outcome the counters tell apart. */
  datatype Kind = KExcluded | KNotIncluded | KContentIgnored | KBinaryDropped | KIncludedBlock | KErrorBlock | KCrash

  function KindOf(o: Outcome): Kind
  {
    match o
    case PathExcluded => KExcluded
    case NotIncluded => KNotIncluded
    case ContentIgnored => KContentIgnored
    case BinaryDropped => KBinaryDropped
    case Shown(b) => if b.Failed? then KErrorBlock else KIncludedBlock
    case Crash => KCrash
  }

  /** How many of the outcomes are of kind `k`. */
  function Count(os: seq<Outcome>, k: Kind): (n: nat)
    ensures n <= |os|
  {
    if os == [] then 0 else Count(os[..|os| - 1], k) + (if KindOf(os[|os| - 1]) == k then 1 else 0)
  }

  /** Each outcome has exactly one kind, so the kinds add up to the number of outcomes. */
  lemma {:induction false} KindsPartition(os: seq<Outcome>)
    ensures |os| == Count(os, KExcluded) + Count(os, KNotIncluded) + Count(os, KContentIgnored)
      + Count(os, KBinaryDropped) + Count(os, KIncludedBlock) + Count(os, KErrorBlock) + Count(os, KCrash)
  {
    if os != [] {
      KindsPartition(os[..|os| - 1]);
    }
  }

  /** What replaying outcomes adds to each counter. */
  lemma {:induction false} ReplayCounts(c: Counts, os: seq<Outcome>)
    requires HasKeys(c)
    ensures var r := Replay(c, os);
      && r.files[PROCESSED] == c.files[PROCESSED] + |os|
      && r.ignores[DEFAULT] == c.ignores[DEFAULT] + Count(os, KExcluded)
      && r.ignores[INCLUDE_PATTERNS] == c.ignores[INCLUDE_PATTERNS] + Count(os, KNotIncluded)
      && r.ignores[GITIGNORE] == c.ignores[GITIGNORE]
      && r.files[INCLUDED] == c.files[INCLUDED] + Count(os, KContentIgnored) + Count(os, KIncludedBlock)
      && r.files[INCLUDED_NO_CONTENT] == c.files[INCLUDED_NO_CONTENT] + Count(os, KContentIgnored)
  {
    if os != [] {
      ReplayCounts(c, os[..|os| - 1]);
    }
  }

  /** One block is yielded per included-with-block or error outcome. */
  lemma {:induction false} EmittedCount(os: seq<Outcome>)
    ensures |Emitted(os)| == Count(os, KIncludedBlock) + Count(os, KErrorBlock)
  {
    if os != [] {
      EmittedCount(os[..|os| - 1]);
    }
  }

  /** Only the last outcome can be a crash, so at most one is. */
  lemma {:induction false} CrashCount(os: seq<Outcome>)
    requires forall i :: 0 <= i < |os| - 1 ==> !os[i].Crash?
    ensures Count(os, KCrash) == if Crashed(os) then 1 else 0
  {
    if |os| > 1 {
      var init := os[..|os| - 1];
      assert forall i :: 0 <= i < |init| - 1 ==> !init[i].Crash?;
      CrashCount(init);
      assert !init[|init| - 1].Crash?;
    } else if |os| == 1 {
      assert os[..0] == [];
    }
  }

  /**
   * The counter invariants of a whole walk: "gitignore" never moves, every handled file is
   * processed once, no-content ≤ included ≤ processed, and every processed file is accounted
   * for by exactly one of: default-ignored, include-filtered, included, a read error block,
   * a binary file without template, or the one crash that ends the walk.
   */
  lemma WalkCounters(cfg: Config, env: Env, walk: seq<FileRecord>, c: Counts)
    requires HasKeys(c)
    ensures var os := Outcomes(cfg, env, walk); var r := Replay(c, os);
      var processed := r.files[PROCESSED] as int - c.files[PROCESSED] as int;
      var included := r.files[INCLUDED] as int - c.files[INCLUDED] as int;
      var noContent := r.files[INCLUDED_NO_CONTENT] as int - c.files[INCLUDED_NO_CONTENT] as int;
      && r.ignores[GITIGNORE] == c.ignores[GITIGNORE]
      && 0 <= noContent <= included <= processed
      && processed == (r.ignores[DEFAULT] - c.ignores[DEFAULT])
           + (r.ignores[INCLUDE_PATTERNS] - c.ignores[INCLUDE_PATTERNS])
           + included + Count(os, KErrorBlock) + Count(os, KBinaryDropped) + Count(os, KCrash)
      && Count(os, KCrash) == (if Crashed(os) then 1 else 0)
      && (!Crashed(os) ==> processed == |walk|)
      && |Emitted(os)| == included - noContent + Count(os, KErrorBlock)
  {
    var os := Outcomes(cfg, env, walk);
    OutcomesInOrder(cfg, env, walk);
    ReplayCounts(c, os);
    KindsPartition(os);
    EmittedCount(os);
    CrashCount(os);
  }

  /** A file matched by file_ignores yields nothing and moves only "processed" and "default". */
  lemma ExcludedFirst(cfg: Config, env: Env, f: FileRecord, c: Counts)
    requires HasKeys(c)
    requires env.matches(cfg.fileIgnores, f.relPath)
    ensures Classify(cfg, env, f) == PathExcluded
    ensures Emit(Classify(cfg, env, f)) == []
    ensures Bump(c, Classify(cfg, env, f)) == Counts(Inc(c.ignores, DEFAULT), Inc(c.files, PROCESSED))
  {
  }

  /**
   * The include allow-list rejects a file only when it is non-empty and does not match; then
   * the file yields nothing and moves only "processed" and "include_patterns".
   */
  lemma IncludeAllowList(cfg: Config, env: Env, f: FileRecord, c: Counts)
    requires HasKeys(c)
    requires !env.matches(cfg.fileIgnores, f.relPath)
    ensures Classify(cfg, env, f) == NotIncluded
      <==> !env.isEmpty(cfg.includeMatcher) && !env.matches(cfg.includeMatcher, f.relPath)
    ensures Classify(cfg, env, f) == NotIncluded ==>
      Emit(NotIncluded) == [] && Bump(c, NotIncluded) == Counts(Inc(c.ignores, INCLUDE_PATTERNS), Inc(c.files, PROCESSED))
  {
  }

  /** Content suppression yields no block at all, yet counts the file as included and as no-content. */
  lemma ContentIgnoredNoBlock(cfg: Config, env: Env, f: FileRecord, c: Counts)
    requires HasKeys(c)
    requires !env.matches(cfg.fileIgnores, f.relPath)
    requires env.isEmpty(cfg.includeMatcher) || env.matches(cfg.includeMatcher, f.relPath)
    requires env.matches(cfg.contentIgnores, f.relPath)
    ensures Classify(cfg, env, f) == ContentIgnored
    ensures Emit(ContentIgnored) == []
    ensures Bump(c, ContentIgnored) == Counts(c.ignores, Inc(Inc(Inc(c.files, PROCESSED), INCLUDED_NO_CONTENT), INCLUDED))
  {
  }

  /** A file that reaches the sniff. */
  predicate Sniffed(cfg: Config, env: Env, f: FileRecord)
  {
    && !env.matches(cfg.fileIgnores, f.relPath)
    && (env.isEmpty(cfg.includeMatcher) || env.matches(cfg.includeMatcher, f.relPath))
    && !env.matches(cfg.contentIgnores, f.relPath)
  }

  /**
   * A binary file yields one block with its display path and size, counted as included, when
   * the binary template is set; without it, nothing is yielded and only "processed" moves.
   */
  lemma BinaryFile(cfg: Config, env: Env, f: FileRecord, c: Counts)
    requires HasKeys(c) && Sniffed(cfg, env, f)
    requires IsBinary(f.mime, f.raw) == Some(true)
    ensures cfg.binaryTemplate ==>
      && Emit(Classify(cfg, env, f)) == [Render(Binary(env.display(f.relPath), f.size))]
      && Bump(c, Classify(cfg, env, f)) == Counts(c.ignores, Inc(Inc(c.files, PROCESSED), INCLUDED))
    ensures !cfg.binaryTemplate ==>
      && Emit(Classify(cfg, env, f)) == []
      && Bump(c, Classify(cfg, env, f)) == Counts(c.ignores, Inc(c.files, PROCESSED))
  {
  }

  /**
   * A text file yields one full-content block counted as included when the read succeeds, and
   * one error block not counted as included when it fails; without an error template the
   * failure escapes and ends the walk.
   */
  lemma TextFile(cfg: Config, env: Env, f: FileRecord, c: Counts)
    requires HasKeys(c) && Sniffed(cfg, env, f)
    requires IsBinary(f.mime, f.raw) == Some(false)
    ensures f.text.Success? ==>
      && Emit(Classify(cfg, env, f))
         == [Render(Full(env.display(f.relPath), env.language(Lower(Extension(f.name))), f.text.value))]
      && Bump(c, Classify(cfg, env, f)) == Counts(c.ignores, Inc(Inc(c.files, PROCESSED), INCLUDED))
    ensures f.text.Failure? && cfg.errorTemplate ==>
      && Emit(Classify(cfg, env, f)) == [Render(Failed(env.display(f.relPath), f.text.error))]
      && Bump(c, Classify(cfg, env, f)) == Counts(c.ignores, Inc(c.files, PROCESSED))
    ensures f.text.Failure? && !cfg.errorTemplate ==> Classify(cfg, env, f) == Crash
  {
  }

  /** A file with no MIME guess that cannot be opened for the sniff ends the walk. */
  lemma SniffFailureCrashes(cfg: Config, env: Env, f: FileRecord)
    requires Sniffed(cfg, env, f)
    requires f.mime.None? && f.raw.None?
    ensures Classify(cfg, env, f) == Crash
  {
  }

  /** The syntax label depends on the file name only through its lower-cased extension. */
  lemma SyntaxFromExtension(cfg: Config, env: Env, f: FileRecord, name: string)
    requires Lower(Extension(f.name)) == Lower(Extension(name))
    ensures Classify(cfg, env, f) == Classify(cfg, env, f.(name := name))
  {
  }

  /** A matcher: the ordered list of what add_patterns and scan_add_pattern_files were given. */
  class PatternMatcher {
    var sources: seq<PatternSource>

    constructor ()
      ensures sources == []
    {
      sources := [];
    }

    method AddPatterns(patterns: seq<string>)
      modifies this
      ensures sources == old(sources) + [Literal(patterns)]
    {
      sources := sources + [Literal(patterns)];
    }

    method ScanAddPatternFiles(dir: string, fileNames: seq<string>)
      modifies this
      ensures sources == old(sources) + [Scanned(dir, fileNames)]
    {
      sources := sources + [Scanned(dir, fileNames)];
    }
  }

  class LmPacker {
    const indexPath: string
    const fileIgnores: PatternMatcher
    const contentIgnores: PatternMatcher
    const includeMatcher: PatternMatcher
    const binaryTemplateSet: bool
    const errorTemplateSet: bool
    var countIgnores: map<string, nat>
    var countFiles: map<string, nat>

    ghost predicate Valid()
      reads this
    {
      && fileIgnores != contentIgnores && fileIgnores != includeMatcher && contentIgnores != includeMatcher
      && HasKeys(Counts(countIgnores, countFiles))
    }

    function Cfg(): Config
      reads fileIgnores, contentIgnores, includeMatcher
    {
      Config(fileIgnores.sources, includeMatcher.sources, contentIgnores.sources, binaryTemplateSet, errorTemplateSet)
    }

    constructor (indexPath: string, binaryTemplateSet: bool, errorTemplateSet: bool)
      ensures Valid()
      ensures fresh(fileIgnores) && fresh(contentIgnores) && fresh(includeMatcher)
      ensures fileIgnores.sources == [] && contentIgnores.sources == [] && includeMatcher.sources == []
      ensures this.indexPath == indexPath
      ensures this.binaryTemplateSet == binaryTemplateSet && this.errorTemplateSet == errorTemplateSet
      ensures Counts(countIgnores, countFiles) == ZERO
    {
      this.indexPath := indexPath;
      fileIgnores := new PatternMatcher();
      contentIgnores := new PatternMatcher();
      includeMatcher := new PatternMatcher();
      this.binaryTemplateSet := binaryTemplateSet;
      this.errorTemplateSet := errorTemplateSet;
      countIgnores := ZERO.ignores;
      countFiles := ZERO.files;
    }

    /**
     * The body of the walk for one file: moves the counters and returns what it yields, or
     * reports that the handling raised.
     */
    method ProcessFile(f: FileRecord, env: Env) returns (yielded: seq<string>, raised: bool)
      requires Valid()
      modifies this`countIgnores, this`countFiles
      ensures Valid()
      ensures Counts(countIgnores, countFiles) == Bump(Counts(old(countIgnores), old(countFiles)), Classify(Cfg(), env, f))
      ensures yielded == Emit(Classify(Cfg(), env, f))
      ensures raised == Classify(Cfg(), env, f).Crash?
    {
      var cfg := Cfg();
      ghost var c := Counts(countIgnores, countFiles);
      ghost var o: Outcome;
      KeysDistinct();
      yielded, raised := [], false;
      countFiles := Inc(countFiles, PROCESSED);
      if env.matches(cfg.fileIgnores, f.relPath) {
        countIgnores := Inc(countIgnores, DEFAULT);
        o := PathExcluded;
      } else if !env.isEmpty(cfg.includeMatcher) && !env.matches(cfg.includeMatcher, f.relPath) {
        countIgnores := Inc(countIgnores, INCLUDE_PATTERNS);
        o := NotIncluded;
      } else if env.matches(cfg.contentIgnores, f.relPath) {
        countFiles := Inc(countFiles, INCLUDED_NO_CONTENT);
        countFiles := Inc(countFiles, INCLUDED);
        o := ContentIgnored;
      } else {
        yielded, raised := ProcessContent(f, env);
        o := ClassifyContent(cfg, env, f);
      }
      assert o == Classify(cfg, env, f);
      assert Counts(countIgnores, countFiles) == Bump(c, o);
    }

    /**
     * The rest of the body for a file that passed the matcher checks: the binary sniff, then
     * the text read; only "included" can move.
     */
    method ProcessContent(f: FileRecord, env: Env) returns (yielded: seq<string>, raised: bool)
      requires Valid()
      modifies this`countFiles
      ensures Valid()
      ensures var o := ClassifyContent(Cfg(), env, f);
        countFiles == if o.Shown? && !o.block.Failed? then Inc(old(countFiles), INCLUDED) else old(countFiles)
      ensures yielded == Emit(ClassifyContent(Cfg(), env, f))
      ensures raised == ClassifyContent(Cfg(), env, f).Crash?
    {
      var cfg := Cfg();
      yielded, raised := [], false;
      var disp := env.display(f.relPath);
      var syntax := Syntax(env, f.name);
      var binary := IsBinary(f.mime, f.raw);
      if binary.None? {
        raised := true;
        return;
      }
      if binary.value {
        if cfg.binaryTemplate {
          var content := Render(Binary(disp, f.size));
          countFiles := Inc(countFiles, INCLUDED);
          yielded := [content];
        }
        return;
      }
      match f.text {
        case Success(text) =>
          var content := Render(Full(disp, syntax, text));
          countFiles := Inc(countFiles, INCLUDED);
          yielded := [content];
        case Failure(error) =>
          if cfg.errorTemplate {
            yielded := [Render(Failed(disp, error))];
          } else {
            raised := true;
          }
      }
    }

    /**
     * Walks the files in order and returns the blocks it yields; stops after a file whose
     * handling raises (`aborted`), keeping what was yielded before it.
     */
    method IterFileContents(walk: seq<FileRecord>, env: Env) returns (blocks: seq<string>, aborted: bool)
      requires Valid()
      modifies this`countIgnores, this`countFiles
      ensures Valid()
      ensures var os := Outcomes(Cfg(), env, walk);
        && Counts(countIgnores, countFiles) == Replay(Counts(old(countIgnores), old(countFiles)), os)
        && blocks == Emitted(os)
        && aborted == Crashed(os)
    {
      var cfg := Cfg();
      ghost var start := Counts(countIgnores, countFiles);
      ghost var done: seq<Outcome> := [];
      blocks := [];
      aborted := false;
      var i := 0;
      while i < |walk| && !aborted
        invariant 0 <= i <= |walk|
        invariant cfg == Cfg()
        invariant Valid()
        invariant Counts(countIgnores, countFiles) == Replay(start, done)
        invariant blocks == Emitted(done)
        invariant aborted == Crashed(done)
        invariant !aborted ==> Outcomes(cfg, env, walk) == done + Outcomes(cfg, env, walk[i..])
        invariant aborted ==> Outcomes(cfg, env, walk) == done
      {
        ghost var o := Classify(cfg, env, walk[i]);
        OutcomesStep(cfg, env, walk, i, done);
        ReplaySnoc(start, done, o);
        var yielded, raised := ProcessFile(walk[i], env);
        blocks := blocks + yielded;
        aborted := raised;
        done := done + [o];
        i := i + 1;
      }
      if !aborted {
        assert walk[i..] == [];
        assert Outcomes(cfg, env, walk[i..]) == [];
      }
      assert Outcomes(cfg, env, walk) == done;
    }
  }
}
