# Documentation formatting core, modelled in Dafny

This project models the deterministic core of the documentation deployment
action: how it makes slugs, how it processes the headings of a document, and
how it classifies a checked-out file tree. Four modules follow the source files.

- `Slug` (`slug.dfy`) models `src/format/slug.ts`.
  - `url_safe_processor` is `UrlSafe`. It calls the external `slugify` library, which enters as a function-valued parameter. It then restores the `DOLLAR`/`DASH` placeholders by global replacement (`Text.ReplaceAll`).
  - `unicode_safe_processor` has two parts. The pure run decomposition `Runs` specifies the chunking. The method `SplitChunks` mirrors the character-by-character `reduce` and is proved to produce exactly `Runs`. `UnicodeSafeProcessor` keeps the non-empty processed chunks and joins them. `UnicodeSafeAppend` splits any text at a change of kind. Together with `UnicodeSafeAllPass` and `UnicodeSafeAllProcess`, it gives the slug of every text, run by run.
  - `make_session_slug_processor` is the class `SlugSession`, whose `seen` set the `Slug` method updates.
- `Headings` (`headings.dfy`) models `src/format/headings.ts`.
  - `validate_headings` is the function `ValidateHeadings`.
  - The `headings` visitor is the class `HeadingState`. It holds the per-document `data` bag: the slug stack, the section stack, `prev_level` and the shared session. Its flag `asWritten` chooses the section step: `true` is the code as written (one pop per shallower heading), `false` the corrected step of the Findings.
  - The pure functions `VisitHeading` (one heading) and `VisitAll` (a whole document, stopping at the first failure) specify the visitor. The methods `Visit` and `ProcessHeadings` are proved to return their results and leave their states, on success and on failure alike.
  - The section stack is a stack of references to lists. Every pushed list is the `sections` of the last entry of the list below it. So the stack is the rightmost path of the table of contents. It is represented as the tree `toc` plus the stack height `open`.
  - The pure functions `SectionStep`, `StepItem` and `Build` give the tree-building rules. Lemmas relate them to the outline the tree denotes.
- `Content` (`content.dfy`) models the pure parts of `src/fs/get_content.ts`: `strip_meta`, the `transformers` table, `transform_files` (a method with the source's nested loops, proved equal to the fold `BaseDocs`), the ignore-list expansion and the scope strip.
- `Text` (`text.dfy`) holds the string operations these rely on: literal global replacement as in `.replace(/X/g, …)`, and `Array.prototype.join`. `Wrappers` (`wrappers.dfy`) holds `Option` and `Result`.

A `throw` in the source becomes a `Failure` value. The two `TypeError`s the visitor can hit are the error values `MissingParentEntry` and `EmptySectionStack`:

- `MissingParentEntry`: a deeper heading when the section stack is empty or its top list has no entry;
- `EmptySectionStack`: the section stack popped empty.

A slug the session has already seen is `SessionError(DuplicateSlug(slug))`, the session's own error wrapped.

Headings of depth 3, 4, 4, 3, 5 give the first depth-3 entry two children, because equal depths append to the same list. They give the second depth-3 entry one child and no grandchild, because a depth-5 heading after a depth-3 one pushes only one list (`SkippedLevel`).

## Model

| member | source | states |
|---|---|---|
| Text.ReplaceAll | src/format/slug.ts:36-37 | a replacement no longer than the pattern never lengthens the string, and one of the same length keeps its length |
| Text.Join | src/format/slug.ts:85 | no parts join to the empty string; otherwise the result starts with the first part, and with two or more parts it starts with the first part followed by the separator |
| Text.JoinLast | src/format/slug.ts:85 | the join of a non-empty list ends with its last part |
| Text.JoinAppend | src/format/slug.ts:85 | joining `a + b` is joining each and putting one separator between them, or just the other join when either list is empty |
| Text.ReplaceAllRemoves | src/format/slug.ts:36-37 | after a global replacement whose replacement text shares no character with the pattern, the pattern no longer occurs |
| Text.ReplaceAllKeepsAbsent | src/format/slug.ts:36-37 | the second replacement (`DASH`→`-`) cannot re-create a `DOLLAR` that the first one removed |
| Text.ReplaceAllChars | src/format/slug.ts:36-37 | a replacement introduces no character other than those of the replacement text |
| Text.ReplaceAllIdentity | src/format/slug.ts:36-37 | with no occurrence of the pattern, the string is unchanged |
| Slug.RestorePlaceholders | src/format/slug.ts:36-37 | the result contains neither `DOLLAR` nor `DASH`, and every character in it was in the input or is `$` or `-` |
| Slug.RestoreIdempotent | src/format/slug.ts:36-37 | restoring twice gives the same string as restoring once |
| Slug.PlaceholderWordsRestored | src/format/slug.ts:26-37 | a literal `DOLLAR`/`DASH` that slugify lets through comes back as `$`/`-` |
| Slug.UrlSafe | src/format/slug.ts:20-38 | the processor's output has no placeholder word left, and its characters come from slugify's output plus `$` and `-` |
| Slug.KindOf | src/format/slug.ts:40-44 | a character is "pass" exactly when it is not ASCII alphanumeric and is a letter |
| Slug.Runs | src/format/slug.ts:52-74 | the chunks concatenate to the input, each is non-empty and all its characters have its kind, and neighbouring chunks differ in kind |
| Slug.ConcatEmpty | src/format/slug.ts:52-74 | the run split has no chunks exactly when the input is empty |
| Slug.RunSplitUnique | src/format/slug.ts:52-74 | any two run splits of the same string are equal, so the maximal-run decomposition is unique |
| Slug.SplitChunks | src/format/slug.ts:52-74 | the character loop, which extends the current chunk or pushes it and starts a new one, returns exactly `Runs(url)` |
| Slug.KeptParts | src/format/slug.ts:75-84 | at most one part per chunk, and no part is empty |
| Slug.KeptOne | src/format/slug.ts:75-84 | one chunk is kept, processed, exactly when its processed text is not empty |
| Slug.KeptPartsAppend | src/format/slug.ts:75-84 | keeping distributes over concatenation of chunk lists, so the kept parts follow the chunks' order |
| Slug.ProcessChunk | src/format/slug.ts:76-79 | a pass chunk is kept as it is; a process chunk goes through the URL-safe processor, so no placeholder word is left in it |
| Slug.UnicodeSafe | src/format/slug.ts:46-86 | empty input gives the empty slug |
| Slug.RunsAppend | src/format/slug.ts:52-74 | where the kind changes between two texts, the runs of the whole are the runs of the first followed by those of the second |
| Slug.UnicodeSafeAppend | src/format/slug.ts:46-86 | where the kind changes between `p` and `q`, the slug of `p + q` is the slugs of `p` and `q` joined by the caller's separator, or only the non-empty one |
| Slug.UnicodeSafeProcessor | src/format/slug.ts:75-85 | the processing loop returns the join of the kept processed chunks, `UnicodeSafe(url)` |
| Slug.SingleRun | src/format/slug.ts:52-74 | a non-empty string of one kind is a single chunk |
| Slug.UnicodeSafeAllPass | src/format/slug.ts:75-85 | text made only of non-ASCII letters comes back unchanged |
| Slug.UnicodeSafeAllProcess | src/format/slug.ts:75-85 | text with no non-ASCII letter is slugified with the default separator, whatever separator the caller gave |
| Slug.UnicodeSafeTwoRuns | src/format/slug.ts:46-86 | a letter run followed by an ASCII run is the letter run, the caller's separator, then the slugified ASCII run |
| Slug.SessionSlug | src/format/slug.ts:88-98 | without `preserve_unicode` the URL-safe processor is used, so no placeholder word is left; with it, empty text gives the empty slug |
| Slug.SlugSession.constructor | src/format/slug.ts:88-95 | absent options take the defaults `false` and `_`, and `seen` starts empty |
| Slug.SlugSession.Slug | src/format/slug.ts:97-103 | a slug already seen fails with `DuplicateSlug` and leaves `seen` alone; otherwise it is returned and `seen` grows by exactly that slug |
| Slug.RepeatedSlugFails | src/format/slug.ts:97-103 | the same text given twice to one session succeeds, then fails with the first slug |
| Slug.SessionsAreIndependent | src/format/slug.ts:95 | a slug accepted by one session is still accepted by another, while the first rejects a repeat |
| Headings.ValidateHeadings | src/format/headings.ts:20-28 | succeeds exactly when every depth is in 3..5; otherwise fails with the first bad depth |
| Headings.OffsetAnchor | src/format/headings.ts:79-83 | a `span` with id `[slug]` and class `offset-anchor`, carrying `data-scrollignore` exactly when the depth is over 4 (line 96) |
| Headings.LinkAnchor | src/format/headings.ts:85-93 | an `a` whose `href` is the directory, `#` and the slug, with class `anchor` and `aria-hidden` set |
| Headings.AnchorChildren | src/format/headings.ts:79-100 | the new children are the span (id `[slug]`, `data-scrollignore` exactly when depth > 4), then the link (`href` = dir#slug), then the rendered children unchanged and in order |
| Headings.PopSlugs | src/format/headings.ts:43-45 | a shallower heading pops `prev_level - depth + 1` slugs, clamped at an empty stack; otherwise nothing is popped; the result is always a prefix |
| Headings.SeedParts | src/format/headings.ts:49-52 | the seed ends with a space and the heading text, and starts with the section title at depth 3 and with the top slug below it; an empty stack gives just the space and the text |
| Headings.SiblingSeed | src/format/headings.ts:43-56 | a depth-4/5 heading at the same or a greater depth seeds its slug with the previous heading's slug |
| Headings.ReachesNext | src/format/headings.ts:58-61 | when the top list has an entry, the last entry's `sections` is a list one level further down the path |
| Headings.AppendAtList | src/format/headings.ts:66-70 | appending at level k grows the level-k list by exactly the new entry |
| Headings.OutlineAppend | src/format/headings.ts:66-70 | appending a leaf on the rightmost path adds it at the end of the outline, at that level |
| Headings.AppendTop | src/format/headings.ts:66-71 | the top list grows by the entry, the stack height is kept, and `prev_level` becomes the depth |
| Headings.AppendTopOutline | src/format/headings.ts:66-70 | the appended entry is the last outline item, at level `open - 1` |
| Headings.SectionStepPopping | src/format/headings.ts:41-71 | deeper: one list pushed; shallower: the given number popped; equal: unchanged; then one entry is appended; failures are the two TypeErrors |
| Headings.SectionStepAsWritten | src/format/headings.ts:62-64 | as written, a shallower heading pops exactly one list however many levels it climbs |
| Headings.SectionStep | src/format/headings.ts:58-71 | corrected: from a stack of height `prev_level - 2`, a heading at most one level deeper succeeds and leaves height `depth - 2` |
| Headings.StepItem | src/format/headings.ts:58-71 | a successful step appends the heading's leaf entry to the top of a stack lying on the old tree's rightmost path |
| Headings.Build | src/format/headings.ts:40-71 | no headings leave the state as it is; a document that builds ends with the last heading's depth as `prev_level` and a non-empty stack; a failure is one of the two TypeErrors |
| Headings.BuildOutline | src/format/headings.ts:66-70 | a document that builds adds each heading to the outline once, in document order, with its slug and title |
| Headings.LevelStep | src/format/headings.ts:58-71 | one corrected step from a settled stack puts the entry at level `depth - 3` and settles the stack at the heading's depth |
| Headings.BuildLevels | src/format/headings.ts:58-71 | with the corrected step, a well-nested document never fails and its outline places every heading at level `depth - 3` |
| Headings.AsWrittenMisplaces | src/format/headings.ts:62-64 | as written, a heading that climbs two or more levels lands at level `prev_level - 4`, deeper than `depth - 3` |
| Headings.AsWrittenMisnests | src/format/headings.ts:58-71 | as written, the well-nested headings 3, 4, 5, 3 put the second depth-3 entry inside the first |
| Headings.CorrectedNests | src/format/headings.ts:58-71 | with the corrected step, the same document makes the second depth-3 entry a sibling of the first |
| Headings.SkippedLevel | src/format/headings.ts:58-71 | with either step, headings 3, 4, 4, 3, 5 (not well nested) give the first depth-3 entry two children and the second one child with no grandchild |
| Headings.Stuck | src/format/headings.ts:58-66 | after a failed section step the tree and `prev_level` are untouched, and the stack is empty exactly when it was popped empty or already was |
| Headings.VisitHeading | src/format/headings.ts:40-71 | one heading's visit keeps the section state valid; on success the slug is new to the session and is exactly what the session adds; on failure the tree and `prev_level` are untouched |
| Headings.VisitHeadingCases | src/format/headings.ts:40-71 | a slug already seen stops the visit with only the slug pops done; otherwise the slug is pushed and recorded, and the visit succeeds exactly when the section step does, a failed step leaving the tree as it was |
| Headings.VisitAll | src/format/headings.ts:38-103 | on success there is one slug per heading, and a document with no headings changes nothing |
| Headings.VisitAllNext | src/format/headings.ts:40-101 | the walk of the first `i + 1` headings is the walk of the first `i`, then the visit of heading `i` from the state they left |
| Headings.VisitStops | src/format/headings.ts:38-103 | once a heading fails, the headings after it are never visited: the whole document's result and state are those of the walk that stopped |
| Headings.VisitAllBuilds | src/format/headings.ts:38-103 | a document that succeeds built its section state by the steps of its headings with the slugs they got, and its slugs are pairwise distinct, new to the session, and exactly what the session added |
| Headings.VisitAllFails | src/format/headings.ts:38-103 | a document that fails has a heading before which every heading succeeded and whose visit gives the error and the final state |
| Headings.VisitPrefix | src/format/headings.ts:38-103 | the first `k` headings of a document that succeeds succeed on their own, with the first `k` slugs |
| Headings.HeadingSlug | src/format/headings.ts:43-56 | heading `i`'s slug is the session's slug of the seed built on the slug stack the earlier headings left, popped for this heading; it was new then and tops the stack after |
| Headings.NestedVisitsFailOnlyOnSlugs | src/format/headings.ts:40-71 | with the corrected step, a well-nested document can fail only on a repeated slug, and a successful walk leaves the stack settled at the last depth |
| Headings.HeadingState.constructor | src/format/headings.ts:39-41 | a fresh data bag has no slugs and one empty section list on the stack |
| Headings.HeadingState.MintSlug | src/format/headings.ts:43-56 | pops the slug stack, computes the slug from the seed, and either fails as a duplicate or pushes the new slug and records it in the session |
| Headings.HeadingState.PlaceEntry | src/format/headings.ts:58-100 | on success the section state is the result of the step chosen by `asWritten` and `hChildren` holds the anchors before the rendered children; on failure the state is `Stuck` and `hChildren` is untouched |
| Headings.HeadingState.Visit | src/format/headings.ts:40-101 | one heading: the result, the slug stack, the section state and the session's seen set are exactly those of `VisitHeading`, and `hChildren` gets the anchors exactly when the visit succeeds |
| Headings.HeadingState.ProcessHeadings | src/format/headings.ts:38-103 | the result and the new state, on success and on failure, are exactly those of `VisitAll` over the headings in order |
| Headings.SharedSessionAcrossDocuments | src/format/headings.ts:12-18 | two documents share the module-level session, so the same first heading fails as a duplicate in the second document |
| Content.StripMeta | src/fs/get_content.ts:129-136 | keeps the name; string content is unchanged; list content keeps its length and each child's name |
| Content.StripAll | src/fs/get_content.ts:133 | the mapped list has the same length and the same names in order |
| Content.StripAllIndex | src/fs/get_content.ts:133 | element i of the mapped list is `strip_meta` of element i |
| Content.Restore | src/fs/get_content.ts:54-72 | the reader's tree for a stripped file: the same name, and `is_dir` set exactly on list content |
| Content.StripRestore | src/fs/get_content.ts:129-136 | on trees where `is_dir` marks exactly the list-valued nodes, stripping loses nothing: `Restore` undoes it |
| Content.StripRestoreAll | src/fs/get_content.ts:133 | the same for a list of such trees |
| Content.RestoreStrip | src/fs/get_content.ts:129-136 | every stripped tree is the strip of a well-formed tree |
| Content.RestoreStripAll | src/fs/get_content.ts:133 | the same for a list of stripped trees |
| Content.ParseCategory | src/fs/get_content.ts:101 | a name is a category exactly when it is one of the six `doc_types`, and the category's name is that name |
| Content.CategoryRoundTrip | src/fs/get_content.ts:93-101 | each category is recognised by its own name, and the six names are distinct |
| Content.Transform | src/fs/get_content.ts:103-122 | `tutorials` and `examples` give `"undefined"`; the others (`faq`, `migrating` and `blog` through `docs`) project each entry to its name and content, in order |
| Content.TransformFiles | src/fs/get_content.ts:144-175 | returns exactly one pair, `[project, base_docs]`, with `base_docs` the fold over the tree; `pkg_path` has no effect |
| Content.CollectOne | src/fs/get_content.ts:159-164 | no category is removed, and only the category the grandchild names, when it has list content, can change |
| Content.Collect | src/fs/get_content.ts:158-165 | the grandchildren never remove a category |
| Content.FromChild | src/fs/get_content.ts:155-166 | a child that is not named `docs_path` or has no list content leaves the bag as it is; none removes a category |
| Content.FromChildren | src/fs/get_content.ts:154-169 | no category is removed, and without a child named `docs_path` the bag is unchanged |
| Content.BaseDocs | src/fs/get_content.ts:153-169 | a root directory with no child named `docs_path` gives an empty bag |
| Content.NotADirectory | src/fs/get_content.ts:153-172 | a root that is not a directory with list content gives an empty bag |
| Content.CollectKeeps | src/fs/get_content.ts:158-165 | a category that no list-valued grandchild names keeps its previous value or absence |
| Content.CollectLast | src/fs/get_content.ts:158-165 | the last list-valued grandchild with a category's name decides that category's value, `strip_meta` of its children; later same-name directories overwrite earlier ones |
| Content.CollectKeys | src/fs/get_content.ts:155-165 | every new key comes from a list-valued grandchild named like the category |
| Content.BaseDocsKeys | src/fs/get_content.ts:153-169 | every key of the bag comes from a list-valued grandchild under a list-valued child named exactly `docs_path` |
| Content.ExpandIgnore | src/fs/get_content.ts:240-242 | the expanded list is twice as long and starts with the original list |
| Content.ExpandIgnoreMembers | src/fs/get_content.ts:240-242 | a name is in the expanded list exactly when it was listed or is `@sveltejs/` followed by a listed name |
| Content.StripScope | src/fs/get_content.ts:223 | a leading `@sveltejs/` is removed; a name not starting with it is unchanged |
| Content.StripScopeOnce | src/fs/get_content.ts:223 | the scope is removed once, from the start only |
| Content.KeepPackages | src/fs/get_content.ts:249-254 | exactly the readable packages whose name is not in the expanded ignore list are kept, and no more packages come out than went in |
| Content.KeepOne | src/fs/get_content.ts:249-251 | a single entry is kept exactly when it was read and its name is not ignored |
| Content.KeepPackagesAppend | src/fs/get_content.ts:249-251 | the filter works entry by entry: what is kept from two runs of entries is what is kept from each, in order, repeats included |
| Content.IgnoredByBareName | src/fs/get_content.ts:223-251 | a package whose unscoped name is listed is never kept |

## Left out

- `slugify` (from `@sindresorhus/slugify`) is a foreign library. It is a function-valued parameter, and nothing is assumed about it. So no property depends on what it does with `$`, `-` or the custom replacements.
- The Unicode `\p{Letter}` test is a parameter `isLetter: char -> bool`. Strings are sequences of `char`, and there is no UTF-16 surrogate handling. What is lost: `split("")` (src/format/slug.ts:53) splits UTF-16 code units, so a letter outside the Basic Multilingual Plane becomes two lone surrogates. Neither is a `\p{Letter}`, so both go through `url_safe_processor`. In the model the same letter is one `char`, which `isLetter` may accept and which then passes through unchanged.
- `mdast-util-to-string`, `mdast-util-to-hast` and `unist-util-visit` are foreign. A heading arrives as its depth, its plain text and its already rendered children, and the walk visits headings in the order given.
- `console.log` calls are left out.
- The `data.seen_slugs` argument passed to the slug processor is ignored by the closure, so it is left out.
- `node.data.hProperties` is only initialised and never filled (src/format/headings.ts:75-77), so it is left out.
- The initial per-document `data` bag is built in format_api.ts, which is not part of this model. The `HeadingState` constructor takes the section title, the directory and the starting `prev_level`, and starts with no slugs and one empty section list.
- Headings.HeadingState.ProcessHeadings: does not restate each node's `hChildren` after the walk. `Visit` states it for each heading, and keeping it across the loop would need a frame argument over the whole node sequence.
- Content.CollectLast: "a later directory wins" is stated within one `docs_path` directory. Two children of the root with the same name cannot occur in a directory listing.
- The I/O functions of src/fs/get_content.ts are left out: `rc_read_file`, `maybe_read_dir`, `get_content_and_filename`, `get_base_documentation` and `get_pkg_and_readme`. These cover file and directory reads, the `DS_Store` filter, the `.md` / `xx` filter, `JSON.parse` of `package.json`, the private-package check and `increment_headings`. `KeepPackages` takes their results as `Option` values, and `WellFormed` states what `rc_read_file` guarantees about `is_dir`.
- Error message texts are left out, except the session's `Duplicate slug <slug>`. Errors are values, not exceptions.

## Findings

| source | as written | input that shows it | evidently intended | confidence | as-written member | corrected member |
|---|---|---|---|---|---|---|
| src/format/headings.ts:62-64 | a heading shallower than the previous one pops exactly one section list | headings of depth 3, 4, 5, 3: the second depth-3 heading is nested inside the first depth-3 entry instead of beside it | pop `prev_level - depth` lists, as the slug stack does with its own count, so that every heading sits at level `depth - 3` | not executed | Headings.AsWrittenMisnests | Headings.BuildLevels |
