# lmpack core, modelled in Dafny

lmpack packs a source tree into one Markdown document for a language model. The document has
an ASCII tree of the files, then one text block per file. This project models the core of
that packer and proves properties of the model:

- `binary_sniff.dfy`: the binary-content decision `is_binary`. A MIME guess decides when one
  exists. Otherwise the first 1024 bytes are read, and a zero byte among them means binary.
- `templates.dfy`: the four block envelopes (full content, no content, binary, read error) as
  `safe_substitute` fills them. `Parse` is an independent reader, and `ParseRender` proves that
  every field is inserted verbatim and can be read back when neither the path nor the syntax
  label holds a line break.
- `packer.dfy`: `LmPacker.iter_file_contents`. The `LmPacker` class keeps the two counter
  dictionaries as `map` fields. `ProcessFile` handles one file, and `IterFileContents` loops
  over the walk. Both are proved against the specification functions `Classify`, `Bump`,
  `Outcomes`, `Replay` and `Emitted`, and lemmas about those functions give the per-branch
  behaviour and the counter invariants of a whole walk.
- `cli.dfy`: the `create_repo_context` glue: `comma_list` and its inverse `Join`, the order in
  which the two matchers are seeded, the output-name fallback, and the document written (the
  tree header, then the blocks in yield order).
- `strings.dfy`, `wrappers.dfy`: string helpers (`startswith`, `rfind`, ASCII `lower`,
  `os.path.splitext`, decimal text of a size) and `Option`/`Result`.

The pattern matchers are not given gitignore semantics. A matcher is the ordered list of what
was added to it (`PatternSource`). Its verdict comes from the collaborator `Env.matches`, and
whether it is empty comes from `Env.isEmpty`. The display-path normaliser, the code-block
language table and the tree builder are the collaborators `Env.display`, `Env.language` and
`Env.tree`. `os.walk` becomes a sequence of `FileRecord`s. Each record carries the file name,
the resolved relative path, the MIME guess, the bytes the sniff can read (None when that
`open` raises), the size, and the result of the text read.

Behaviours of lmpack that the model keeps as the code has them:

- The sniff's `open` (lmpack/lm_packer.py:76) sits outside the `try` at lmpack/lm_packer.py:168.
  A file with no MIME guess that cannot be opened therefore raises out of the walk, although
  lmpack/lm_packer.py:181-188 turns failures of the text read into an error block. The model
  gives such a file the `Crash` outcome, which ends the walk (`SniffFailureCrashes`).
- With `file_error_template` set to None, a failed read raises `AttributeError` inside the
  `except` block at lmpack/lm_packer.py:183 and also ends the walk (`TextFile`).
- A content-ignored file yields no block at all, and the no-content template of
  lmpack/lm_packer.py:30-39 is never used (`ContentIgnoredNoBlock`).
- A read-error block does not increment "included".

## Model

| member | source | states |
|---|---|---|
| BinarySniff.Chunk | lmpack/lm_packer.py:76-77 | the sniffed chunk is the prefix of the file of length min(1024, file length) |
| BinarySniff.IsBinary | lmpack/lm_packer.py:65-81 | with a MIME guess: binary iff the type does not start with "text", whatever the bytes; without one: undefined (raises) iff the file cannot be opened, otherwise binary iff a zero byte lies among the first 1024 |
| BinarySniff.MimeDecides | lmpack/lm_packer.py:70-73 | with a MIME guess the bytes, and even whether the file opens, play no part, and the answer is always defined |
| BinarySniff.OnlyPrefixMatters | lmpack/lm_packer.py:75-81 | without a MIME guess, two files with the same first 1024 bytes get the same answer |
| BinarySniff.LateZeroIgnored | lmpack/lm_packer.py:76-81 | a zero byte after the first 1024 does not make a file binary |
| Templates.Render | lmpack/lm_packer.py:17-62 | every block starts with an empty line, the start-marker line and "Path: ", ends with the end-marker line, and between them holds the path, a line break and the type's body |
| Templates.Parse | lmpack/lm_packer.py:17-62 | the reader accepts only text inside the shared envelope |
| Templates.ParseRender | lmpack/lm_packer.py:17-62 | for a block whose path and syntax label hold no line break, reading the rendered block back gives the same block: path, syntax label, content, size and error text are inserted verbatim |
| Templates.RenderInjective | lmpack/lm_packer.py:17-62 | two different blocks whose paths and syntax labels hold no line break never render to the same text |
| Strings.Lower | lmpack/lm_packer.py:154 | `lower()` keeps the length, maps each character by itself, and leaves no upper-case ASCII letter |
| Strings.StartsWith | lmpack/lm_packer.py:73 | `str.startswith`: true iff the text is at least as long as the prefix and agrees with it character by character |
| Strings.Extension | lmpack/lm_packer.py:154 | `os.path.splitext(file)[1]`: when non-empty, a dot followed by no other dot, ending the name |
| Strings.NatToString | lmpack/lm_packer.py:160-163 | the decimal text of the size `safe_substitute` inserts: non-empty, all digits, no leading zero (and `ParseNatToString` reads it back) |
| Strings.ExtensionShape | lmpack/lm_packer.py:154 | the `splitext` extension is empty or a dot plus a dot-free tail ending the name; it is non-empty iff some dot has a non-dot character before it |
| Packer.Classify | lmpack/lm_packer.py:132-188 | a file matched by file_ignores is excluded whatever else holds; only blocks with the file's display path are shown, and never a no-content block |
| Packer.ClassifyContent | lmpack/lm_packer.py:151-188 | past the matchers a file is dropped as binary, shown, or raises; a shown block carries the display path |
| Packer.Syntax | lmpack/lm_packer.py:154-155 | the syntax label is `get_codeblock_language` of the lower-cased extension; what follows from that for the outcome is stated by `SyntaxFromExtension` |
| Packer.Inc | lmpack/lm_packer.py:132-178 | `d[k] += 1`: the key gains one, every other key keeps its value, and no key is added or removed |
| Packer.Bump | lmpack/lm_packer.py:132-188 | every handled file moves "processed" by one, "gitignore" never moves, and all keys stay present |
| Packer.Emit | lmpack/lm_packer.py:158-188 | a file yields at most one block, and exactly one iff it is shown |
| Packer.Outcomes | lmpack/lm_packer.py:127-188 | the walk's outcomes: no more than there are files, and the first file's own classification first |
| Packer.Replay | lmpack/lm_packer.py:132-188 | the counters after the outcomes in order: "processed" grows by their number, "gitignore" does not move |
| Packer.Emitted | lmpack/lm_packer.py:158-188 | the blocks yielded for the outcomes in order: no more blocks than outcomes |
| Packer.OutcomesInOrder | lmpack/lm_packer.py:127-188 | the walk handles files in order, each by its own classification; only the last can raise, and the walk stops early only after a raise |
| Packer.KindsPartition | lmpack/lm_packer.py:132-188 | every handled file falls into exactly one outcome kind |
| Packer.ReplayCounts | lmpack/lm_packer.py:132-188 | after a walk each counter has grown by the number of outcomes of its kinds, and "gitignore" not at all |
| Packer.EmittedCount | lmpack/lm_packer.py:158-188 | the number of blocks yielded is the number of shown files |
| Packer.CrashCount | lmpack/lm_packer.py:127-188 | at most one file raises, and only when the walk ends with it |
| Packer.WalkCounters | lmpack/lm_packer.py:99-188 | after a walk: "gitignore" unchanged; no-content ≤ included ≤ processed; processed = default + include_patterns + included + error blocks + binaries without template + the raising file; processed = walk length unless a file raised; blocks = included − no-content + error blocks |
| Packer.ExcludedFirst | lmpack/lm_packer.py:135-137 | a file matched by file_ignores yields nothing and moves only "processed" and "default", even when other matchers also match it |
| Packer.IncludeAllowList | lmpack/lm_packer.py:140-143 | the allow-list filters a file iff it is non-empty and does not match; such a file yields nothing and moves only "processed" and "include_patterns" |
| Packer.ContentIgnoredNoBlock | lmpack/lm_packer.py:146-149 | a content-ignored file yields no block yet moves "included_no_content" and "included" |
| Packer.BinaryFile | lmpack/lm_packer.py:158-166 | a binary file yields one block with its display path and size and moves "included" when the binary template is set; otherwise nothing beyond "processed" |
| Packer.TextFile | lmpack/lm_packer.py:168-188 | a successful read yields one full block with path, syntax label and content and moves "included"; a failed read yields one error block that does not; without an error template it raises |
| Packer.SniffFailureCrashes | lmpack/lm_packer.py:158 | a file with no MIME guess that cannot be opened for the sniff raises out of the walk |
| Packer.SyntaxFromExtension | lmpack/lm_packer.py:154-155 | with the resolved path, MIME guess, bytes, size and read result held fixed, the file name affects the outcome only through the syntax label, that is, through its lower-cased extension |
| Packer.PatternMatcher.constructor | lmpack/lm_packer.py:88-91 | a new matcher holds no sources |
| Packer.PatternMatcher.AddPatterns | lmpack/main.py:166-173 | appends the literal patterns after everything added before |
| Packer.PatternMatcher.ScanAddPatternFiles | lmpack/main.py:180-187 | appends the scan of the named files in a directory after everything added before |
| Packer.LmPacker.constructor | lmpack/lm_packer.py:84-109 | three distinct empty matchers, the templates as given, and all counters at zero |
| Packer.LmPacker.ProcessFile | lmpack/lm_packer.py:132-188 | the counters move as `Bump` of the file's classification, the yield is its `Emit`, and it raises iff the classification is `Crash` |
| Packer.LmPacker.ProcessContent | lmpack/lm_packer.py:151-188 | past the matchers only "included" can move, and only for a shown block that is not an error block |
| Packer.LmPacker.IterFileContents | lmpack/lm_packer.py:124-188 | the counters end as the replay of the walk's outcomes, the blocks are those outcomes' blocks in order, and it stops iff a file raised |
| Cli.CommaList | lmpack/main.py:85-86 | `split(",")` gives one more piece than there are commas, and no piece holds a comma |
| Cli.JoinCommaList | lmpack/main.py:85-86 | joining the pieces with commas gives the original text back |
| Cli.CommaListJoin | lmpack/main.py:85-86 | splitting the comma-join of one or more comma-free pieces gives the pieces back |
| Cli.BaseName | lmpack/main.py:177 | `Path.name` is slash-free, ends the path, and is preceded by a slash unless it is the whole path: the whole text after the last slash |
| Cli.BaseNameJoin | lmpack/main.py:177 | the name of a slash-free component joined under any directory is that component |
| Cli.FileIgnoreSources | lmpack/main.py:166-182 | file_ignores gets the defaults first, the user exclusions second only when given and non-empty, then the index directory's ignore files, then the git root's last only when found |
| Cli.ContentIgnoreSources | lmpack/main.py:173-187 | content_ignores gets the defaults, then the index directory's content-ignore files, then the git root's only when found |
| Cli.OutputName | lmpack/main.py:190-198 | an empty template gives "context.lmpack.md"; otherwise the template formatted with the git root's name (or the index directory's) and the index directory's name |
| Cli.DefaultTemplateFormats | lmpack/main.py:108-112 | the default template "{repo_name}_context.lmpack.md" is non-empty, so by default the name is the formatted one and never the fixed fallback |
| Cli.DocumentHeader | lmpack/main.py:211-213 | the header starts with the tree heading and fence, ends with the closing fence and the contents heading, and holds the tree verbatim between them |
| Cli.Concat | lmpack/main.py:217-219 | the successive `outfile.write` calls: nothing for no blocks, and the text ends with the last block written |
| Cli.ConcatAppend | lmpack/main.py:217-219 | writing two runs of blocks one after the other writes the text of the first run followed by that of the second |
| Cli.ConcatAt | lmpack/main.py:217-219 | each block is written whole, right after the blocks before it |
| Cli.NoAllowListFromCli | lmpack/main.py:122-187 | with the allow-list left empty by the command line, no file is ever filtered by it and "include_patterns" stays at zero |
| Cli.CliConfig | lmpack/main.py:163-187 | the packer `create_repo_context` builds: both templates set, an empty allow-list, and the two matchers seeded as above |
| Cli.SeedMatchers | lmpack/main.py:163-187 | the seeding calls leave file_ignores and content_ignores holding exactly the ordered sources above |
| Cli.WriteDocument | lmpack/main.py:209-219 | the written text is the header followed by the blocks in order |
| Cli.CreateRepoContext | lmpack/main.py:163-219 | the packer is seeded in source order with an empty allow-list, the output is named by `OutputName`, the document is the header over the tree of file_ignores followed by the walk's blocks in order, and the counters are the walk's replay from zero |

## Left out

- The gitignore semantics of the matchers: lmpack/ignores.py is not part of this model. A matcher is its ordered list of sources, and its verdicts and emptiness come from `Env`.
- The tree builder (lmpack/dir_tree.py) and the display-path and language helpers (lmpack/formatting.py) are not part of this model. They are the opaque functions `Env.tree`, `Env.display` and `Env.language`.
- File-system I/O: `os.walk`, `Path.resolve` and `relative_to` become the given sequence of records. The utf-8-sig decoding with BOM removal, `os.path.getsize` and `mimetypes.guess_type` become record fields. An exception from `resolve`, `relative_to`, `getsize` or the collaborators is not modelled.
- `try_find_git_root` runs a `git` subprocess. Its answer is the `gitRoot` parameter.
- The typer/rich command-line surface, the conversion of option text into lists, the verbose flag, logging, and the echoed counter summary are presentation only.
- The output directory and the dead `if not output_path` fallback are not modelled. Only the file name is.
- Cli.OutputName: `str.format` is the opaque `format` parameter, and the `rel_index_path` value (the index path relative to the git root) is not passed to it.
- Strings.Lower: folds ASCII letters only. Python's `str.lower` also folds other Unicode letters.
- Packer.LmPacker.IterFileContents: the generator is modelled as returning every block at once, and `CreateRepoContext` writes them afterwards. The source interleaves yields and writes, which gives the same written text.
- The counter dictionaries and the default matchers are class-level objects in the source. They are shared by every `LmPacker` and never reset. The model gives one packer its own matchers and counters starting at zero for one run.
- Templates other than the defaults or None (custom `Template` objects) are not modelled.
- `write_file_contents` and `create_ascii_tree` on the packer only forward to the walk and the tree builder.
