# In-memory file system and chat command interpreter

`app.js` is a browser page that holds a small file system in memory (the `VFS`
object). It also runs a chat box whose commands (`ls`, `mkdir`, `write file`, …)
read and change that file system. This project models the part of the page
that has logic in it, and leaves out the DOM glue:

- **`paths.dfy`** (module `Paths`): turning a path string into segments.
  The segments come from `path.split('/').filter(p => p)`. The module also
  gives the canonical path `'/' + segments.join('/')`, the child path
  `dir + '/' + name` and `getParentPath`.
- **`tree.dfy`** (module `Tree`): the tree as a value.
  - A node is `File(name, path, content)` or `Dir(name, path, children, order)`.
  - `order` is the insertion order of the keys, which `Object.keys` and
    `for … in` report.
  - The module also holds the `VFS` operations as functions that follow the
    source's branches. Among them, `CreateIn` follows the loop of
    `createFile`/`createDirectory` step by step. That includes the
    intermediate directories it adds before it may fail.
- **`tree_properties.dfy`** (module `TreeProperties`): what the operations
  promise.
  - Exact success conditions, for both directions.
  - A failed call leaves the tree unchanged.
  - A successful call changes exactly one position of the tree, stated
    through `View`.
  - Read after write and read after delete.
  - Every operation keeps the tree invariant. The invariant is that each key
    equals its child's name, each path is the canonical path of its position,
    and `order` lists the keys without repeats.
  - `getAllFilePaths` returns exactly the files.
- **`file_system.dfy`** (module `FileSystem`): the `VFS` object as a class
  `Vfs` with a mutable `root`.
  - Each method is proved equal to the function it implements.
  - `Create` keeps the source's `for` loop (`CreateWalk`). It rebuilds the
    path from the root with a zipper (`Plug`).
  - `GetAllFilePaths` keeps the recursive loop of `getAllFilePaths`
    (`Traverse`).
- **`tokenizer.dfy`** (module `Tokenizer`): the parts of the command text.
  - The tokenizer: `trim()`, then the regular expression
    `(?:[^\s"]+|"[^"]*")+`.
  - Quote removal from paths.
  - The stripping of one leading and one trailing `"` from `write` content.
  - Lower-casing of keywords.
- **`commands.dfy`** (module `Commands`): `processUserCommand` and the
  `tool_*` functions.
  - They are pure functions from the tree, the explorer path and the open
    file path to one reply, a new tree and new paths.
  - A JavaScript exception is an `Abrupt` completion, which turns into the
    generic reply.
- **`command_properties.dfy`** (module `CommandProperties`): what a command
  does, stated over whole command strings.
  - Every command keeps the tree well formed.
  - An error reply means nothing changed.
  - The dispatch quirks are kept as the code has them.

Three behaviours of the dispatcher are modelled as the code has them:
- Tokens keep their quotes (app.js:438). Only path arguments lose every `"`
  (`replace(/"/g, '')`, app.js:458-547).
- The help text advertises `create file <path> [content]` (app.js:421-422),
  yet `create file …` never reaches `tool_add_file`. The first
  `case 'create'` label (app.js:462) is the one selected, and its branch
  answers with the `create folder` usage message.
- `rmdir file x` deletes a *folder* named `file`. The `rmdir` branch at
  app.js:487-489 comes before the `file` test.

## Model

| member | source | states |
|---|---|---|
| Paths.Split | app.js:10 | `split('/')` gives at least one piece, none holding a `/`; `JoinSplit` states that joining them with `/` gives the text back |
| Paths.NonEmpty | app.js:10 | `filter(p => p)` keeps only non-empty pieces of the input and never more of them; `NonEmptyAppend` and `NonEmptyKeepsSegments` state which |
| Paths.Segments | app.js:10-11 | every segment of a path is non-empty and holds no `/` |
| Paths.JoinSplit | app.js:10 | joining the pieces of `split('/')` with `/` gives the path back |
| Paths.SplitJoin | app.js:10 | splitting a `/`-join of slash-free pieces gives the pieces back |
| Paths.SplitAround | app.js:10 | splitting `x + '/' + y` splits `x` and `y` separately |
| Paths.NonEmptyAppend | app.js:10 | `filter(p => p)` distributes over concatenation |
| Paths.NonEmptyKeepsSegments | app.js:10 | filtering a list of proper segments keeps all of them |
| Paths.JoinSnoc | app.js:69 | joining one more piece appends the separator and the piece |
| Paths.RootHasNoSegments | app.js:8-11 | `'/'` has no segments |
| Paths.CanonSegments | app.js:69-82 | the canonical path `'/' + segs.join('/')` splits back into `segs` |
| Paths.CanonSnoc | app.js:69-82 | extending a built path by one name gives the canonical path of the longer list |
| Paths.ChildPathCanon | app.js:578 | the child path of a canonical directory path is the canonical path of the longer list |
| Paths.ChildPathSegments | app.js:332 | the child path of `dir` and `name` has the segments of `dir` followed by `name` |
| Paths.GetParentPath | app.js:789-795 | `getParentPath`: `'/'` for the root and single-segment paths, else the canonical path of all segments but the last (stated by `ParentPathSegments`) |
| Paths.ParentPathSegments | app.js:789-795 | the parent path is the canonical path of all segments but the last, so its segments are those segments: root and single-segment paths give `'/'` |
| Paths.ParentOfChild | app.js:789-795 | the parent of a listed entry's path is its directory's canonical path |
| Tree.Resolve | app.js:7-51 | a resolved `'/'` has no parent, and any other resolved path has a directory as its parent |
| TreeProperties.ResolveSpec | app.js:7-51 | `'/'` resolves to the root with no parent. Any other path resolves exactly when it has segments and all but the last lead through directories. Then `parent` is that directory and `current` is the node at the path, or none |
| TreeProperties.UnresolvedFindsNothing | app.js:12-29 | when resolution fails, there is no node at the path |
| Tree.WalkDirs | app.js:22-30 | the segment walk of `resolvePath` ends at a directory when it succeeds; `WalkDirsLookup` states where |
| TreeProperties.WalkDirsLookup | app.js:22-30 | the walk succeeds exactly when the segments lead through directories, and it reaches the node at them |
| TreeProperties.LookupLast | app.js:22-46 | the node at a path is the last name's child of the directory above, if that directory exists |
| TreeProperties.LookupAppend | app.js:22-30 | a lookup along `p + s` is a lookup along `p`, then along `s` |
| TreeProperties.LookupBelowFile | app.js:26-28 | nothing lies below a file |
| TreeProperties.LookupWellFormed | app.js:1-4 | every subtree of a well-formed tree is well formed at its own position |
| TreeProperties.FoundNodeIsCanonical | app.js:69-93 | in a valid tree the node at a position has the last segment as its name and the canonical path as its path |
| Tree.CreateIn | app.js:64-96 | the loop of `createFile` hands back a directory with the name and path of the one it started at |
| Tree.CreateNode | app.js:54-97 | create hands back a root directory |
| TreeProperties.CreateOutcome | app.js:54-97 | create succeeds exactly when the path has segments, nothing is at it, and no file lies on the way. On failure the tree is unchanged |
| TreeProperties.CreateInSucceeds | app.js:64-87 | the loop succeeds exactly when nothing is at the remaining segments and no file lies on the way |
| TreeProperties.CreateInFailureUnchanged | app.js:64-87 | the loop fails before it has created anything, so a failed call leaves the tree unchanged |
| TreeProperties.FreshDirAccepts | app.js:71-77 | below a freshly created, empty directory the loop cannot fail |
| TreeProperties.CreateInView | app.js:64-96 | after a successful loop, the new leaf sits at the full path, each missing prefix is a new empty directory, and every other position is unchanged |
| TreeProperties.CreateView | app.js:54-97 | after a successful create, the new leaf sits at the path, each missing ancestor is a new directory, and every other position is unchanged |
| TreeProperties.CreatedLeaf | app.js:82-96 | the created leaf carries the last segment as name and the canonical path as path |
| TreeProperties.CreatedNodeResolves | app.js:54-97 | after a successful create, the path resolves to the new node with its canonical name and path |
| TreeProperties.CreateInKeepsWellFormed | app.js:64-96 | every auto-created directory and the new leaf get the canonical path of their position |
| TreeProperties.CreateKeepsValid | app.js:54-97 | create keeps the tree invariant |
| TreeProperties.CreateTwice | app.js:84-87 | creating the same path again fails and changes nothing, whatever kind of node |
| FileSystem.Plug | app.js:64-79 | rebuilding the tree around the walked directories yields a directory with the root's name and path |
| FileSystem.PlugSnoc | app.js:64-79 | descending one directory is one more frame of the rebuilt tree |
| FileSystem.DescendStep | app.js:65-78 | one loop step reuses an existing directory or makes an empty one with the next canonical path |
| FileSystem.FileInTheWay | app.js:74-76 | a file on the way makes the loop fail without a change |
| FileSystem.LastStep | app.js:81-96 | the last step fails when the name exists, otherwise it inserts the leaf under the canonical path |
| FileSystem.KeepWalking | app.js:64-79 | the loop invariant of `CreateWalk` survives one step |
| FileSystem.CreateWalk | app.js:64-96 | the imperative walk returns the same outcome and tree as the loop's definition |
| FileSystem.AttachLeaf | app.js:81-96 | at the last segment an existing name fails, and a new name gets the file or directory, plugged back along the directories passed |
| FileSystem.StopAtFile | app.js:74-76 | a file in the way stops the walk with `false`, and the directories created before it stay |
| FileSystem.Vfs.constructor | app.js:1-4 | the file system starts as an empty root directory named `'/'` |
| FileSystem.Vfs.ResolvePath | app.js:7-51 | the walk resolves as `Resolve` does, and a resolved `current` is the node at the path |
| FileSystem.Vfs.Create | app.js:54-97 | the new root and result are those of `CreateNode`, and the invariant is kept |
| FileSystem.Vfs.CreateFile | app.js:54-97 | `createFile` with content, as `CreateNode`, keeping the invariant |
| FileSystem.Vfs.CreateDirectory | app.js:243-286 | `createDirectory`, as `CreateNode`, keeping the invariant |
| Tree.ReadFile | app.js:101-120 | `readFile`, as specified by `ReadFileSpec` |
| TreeProperties.ReadFileSpec | app.js:101-120 | `readFile` returns the content exactly when a file is at the path, and null otherwise |
| FileSystem.Vfs.ReadFile | app.js:101-120 | the content exactly when a file is at the path, null otherwise |
| Tree.UpdateFile | app.js:124-144 | `updateFile` returns a root directory; `UpdateFileOutcome`, `UpdateFileView` and `UpdateFileOrder` state what changes |
| TreeProperties.UpdateFileOutcome | app.js:124-144 | `updateFile` succeeds exactly for an existing file, and on failure changes nothing |
| TreeProperties.UpdateFileView | app.js:124-144 | a successful update replaces the content at that path alone |
| TreeProperties.ReadAfterUpdate | app.js:101-144 | after a successful update, reading the path returns the new content |
| TreeProperties.UpdateFileKeepsValid | app.js:124-144 | update keeps the tree invariant |
| FileSystem.Vfs.UpdateFile | app.js:124-144 | succeeds exactly for an existing file, as `Tree.UpdateFile`, keeping the invariant |
| Tree.DeleteFile | app.js:149-177 | `deleteFile` returns a root directory; `DeleteFileOutcome`, `DeleteFileView` and `DeleteFileOrder` state what changes |
| TreeProperties.DeleteFileOutcome | app.js:149-177 | `deleteFile` succeeds exactly when a file is at the path, and on failure changes nothing |
| TreeProperties.DeleteFileView | app.js:149-177 | a successful delete removes that position alone |
| TreeProperties.ReadAfterDelete | app.js:101-177 | after a successful delete, reading the path returns null |
| TreeProperties.DeleteFileKeepsValid | app.js:149-177 | deleting a file keeps the tree invariant |
| FileSystem.Vfs.DeleteFile | app.js:149-177 | succeeds exactly for an existing file, as `Tree.DeleteFile`, keeping the invariant |
| Tree.DeleteDirectory | app.js:182-215 | `deleteDirectory` returns a root directory; `DeleteDirectoryOutcome`, `DeleteDirectoryView` and `DeleteDirectoryOrder` state what changes |
| TreeProperties.DeleteDirectoryOutcome | app.js:182-215 | `deleteDirectory` succeeds exactly for an empty directory other than the root, and on failure changes nothing |
| TreeProperties.FoundAtResolved | app.js:7-51 | away from the root, a path names an existing node exactly when it resolves with a `current`, which is then a child of `parent` |
| TreeProperties.DeleteDirectoryView | app.js:182-215 | a successful delete removes that position alone |
| TreeProperties.DeleteDirectoryKeepsValid | app.js:182-215 | deleting a directory keeps the tree invariant |
| TreeProperties.DetachView | app.js:149-215 | detaching a node with nothing below it removes that position alone |
| TreeProperties.DetachKeepsValid | app.js:149-215 | detaching a child keeps the tree invariant |
| FileSystem.Vfs.DeleteDirectory | app.js:182-215 | succeeds exactly for an empty non-root directory, as `Tree.DeleteDirectory`, keeping the invariant |
| Tree.ListDirectoryContents | app.js:220-239 | `listDirectoryContents`, as specified by `ListSpec` |
| TreeProperties.ListSpec | app.js:220-239 | `listDirectoryContents` gives the directory's keys in insertion order for `'/'` or a directory path, and null otherwise |
| TreeProperties.ListedNamesAreChildren | app.js:220-239 | the listed names are distinct and are exactly the directory's children |
| FileSystem.Vfs.ListDirectoryContents | app.js:220-239 | names exactly when the target is a directory, and the names are exactly its children |
| Tree.AllFilePaths | app.js:574-586 | `getAllFilePaths` below one directory, as specified by `AllFilePathsSound` and `AllFilePathsComplete` |
| TreeProperties.AllFilePathsSound | app.js:574-586 | every path collected below a directory is canonical, lies below it, and names a file |
| TreeProperties.AllFilePathsComplete | app.js:574-586 | every file below a directory is collected with its canonical path |
| TreeProperties.AllFilePathsSpec | app.js:574-586 | `getAllFilePaths()` lists exactly the canonical paths of the files in the tree |
| TreeProperties.FilesFromHas | app.js:576-584 | what one entry contributes is in the paths collected from any earlier entry |
| TreeProperties.FilesFromWhich | app.js:576-584 | every collected path comes from one entry |
| FileSystem.Traverse | app.js:574-586 | the recursive loop returns exactly `AllFilePaths` |
| FileSystem.Vfs.GetAllFilePaths | app.js:574-586 | exactly the canonical paths of the files in the tree |
| Tokenizer.Trim | app.js:438 | `trim()`: `TrimStart` then `TrimEnd`, which state what each drops |
| Tokenizer.TrimStart | app.js:438 | drops exactly the leading white space: the rest is a suffix that starts with a non-space |
| Tokenizer.TrimEnd | app.js:438 | drops exactly the trailing white space: the rest is a prefix that ends with a non-space |
| Tokenizer.TrimKeeps | app.js:438 | a string with no white space at either end is its own trim |
| Tokenizer.ClosingQuote | app.js:438 | finds the first `"` at or after a position, or reports that none is left |
| Tokenizer.ClosingQuoteFinds | app.js:438 | the first `"` after the opening one closes the span |
| Tokenizer.NoClosingQuote | app.js:438 | without a later `"`, there is no span |
| Tokenizer.TokenEnd | app.js:438 | the end of the longest match of the token regular expression at a position, never before it; `EmptyMatchIsSkipped` and `TokenEndStops` state where it stops |
| Tokenizer.TokensFrom | app.js:438 | every match of the global regular expression from a position on; no match is empty |
| Tokenizer.Tokenize | app.js:438 | no token is empty |
| Tokenizer.TokenIsShaped | app.js:438 | each non-empty match is a concatenation of runs of non-space, non-`"` characters and `"…"` spans without inner `"` |
| Tokenizer.TokenPieces | app.js:438 | the pieces of one match, each a plain run or a quoted span, concatenated in order |
| Tokenizer.TokensShaped | app.js:438 | every token from a position on has the shape of the regular expression |
| Tokenizer.TokenizeShaped | app.js:438 | every token of a command has the shape of the regular expression |
| Tokenizer.EmptyMatchIsSkipped | app.js:438 | no match starts at a position exactly when its character is white space or a `"` with no `"` after it |
| Tokenizer.TokenEndStops | app.js:438 | a match stops at the end of the text or at a character that cannot start one |
| Tokenizer.TokensFromLayout | app.js:438 | the tokens occur in order in the text: before each one only skipped characters (white space, unpaired `"`), each is a shaped slice ending at the end or at a skipped character; no tokens means every character is skipped |
| Tokenizer.TokenizeLayout | app.js:438 | the same layout for the trimmed command text from its start |
| Tokenizer.TokenEndPlain | app.js:438 | a run of plain characters ends at the next white space or at the end of the text |
| Tokenizer.TokensFromWords | app.js:438 | words separated by single spaces come back one token each |
| Tokenizer.TokenizeWords | app.js:438 | tokenizing words joined by single spaces gives the words back |
| Tokenizer.QuotedSpanIsOneToken | app.js:438 | a quoted span with spaces inside is one token and keeps its quotes |
| Tokenizer.QuotedToken | app.js:438 | a string whose only two `"` are its first and last characters is one token |
| Tokenizer.LowerCaseWord | app.js:444 | a non-empty run of `a`-`z` is a plain word that lower-casing leaves unchanged |
| Tokenizer.UnpairedQuoteSkipped | app.js:438 | a leading `"` with no closing partner is dropped: `"w` gives `[w]` |
| Tokenizer.TokenEndRun | app.js:438 | a run of plain characters does not change where the match ends |
| Tokenizer.SkipQuote | app.js:438 | an unpaired `"` contributes no token and is skipped |
| Tokenizer.SplitAtQuote | app.js:438 | from the start, `a"b` of two words gives the tokens `a` and `b` |
| Tokenizer.UnpairedQuoteSplits | app.js:438 | an unpaired `"` splits a word: `ab"cd` gives `["ab", "cd"]` |
| Tokenizer.BlankHasNoTokens | app.js:438-442 | a text of white space only has no tokens |
| Tokenizer.RemoveQuotes | app.js:458-534 | removes every `"` and keeps every other character |
| Tokenizer.RemoveQuotesChar | app.js:458-547 | one character: a `"` is removed, anything else kept |
| Tokenizer.RemoveQuotesAppend | app.js:458-547 | quote removal works character by character: it distributes over concatenation |
| Tokenizer.RemoveQuotesKeepsPlain | app.js:534 | a path without quotes is kept as it is |
| Tokenizer.StripOuterQuotes | app.js:535 | removes one leading `"` if there is one, then one trailing `"` if one is left: the rest is the middle slice, of exactly that length |
| Tokenizer.JoinEnds | app.js:535 | the content joined from plain words starts and ends with a word character |
| Tokenizer.ToLower | app.js:444 | lower-cases each character |
| Tokenizer.ToLowerIdempotent | app.js:444 | lower-casing twice is lower-casing once |
| Tokenizer.ToLowerKeeps | app.js:444 | a keyword already in lower case is unchanged |
| Commands.FixedRepliesAreNoErrors | app.js:419-560 | none of the fixed replies begins with `Error: ` |
| Commands.ItemLine | app.js:331-337 | the line for one item with its type looked up through its full path; `ListingKnowsEveryType` states the type is always known |
| Commands.ItemLines | app.js:331-335 | one line per listed item, in order |
| Commands.ToolListFiles | app.js:323-343 | lists the given path, or the explorer's when none is given. The reply is an error exactly when the target is not a listable directory, and nothing changes. For a directory the reply is the empty message, or the header and one line per item in order |
| Commands.ToolAddFile | app.js:797-805 | the tree afterwards is `createFile`'s; success exactly when create succeeds, and then the explorer moves to the parent. On error nothing changes |
| Commands.ToolAddFolder | app.js:807-815 | the tree afterwards is `createDirectory`'s; success exactly when create succeeds, and then the explorer moves to the parent. On error nothing changes |
| Commands.ToolDeleteFile | app.js:345-360 | the tree afterwards is `deleteFile`'s; success exactly for a file, and then the explorer moves to the parent and an open copy is closed. On error nothing changes |
| Commands.ToolDeleteFolder | app.js:362-377 | the tree afterwards is `deleteDirectory`'s, thrown or not; it throws exactly when the delete succeeded while no file is open. Otherwise it succeeds exactly when the delete does, and then moves the explorer and closes an open file in or at the folder |
| Commands.ToolWriteFile | app.js:379-390 | the tree afterwards is `updateFile`'s; success exactly for an existing file. On error the tree is unchanged, and the explorer and open path never change |
| Commands.ToolReadFile | app.js:392-399 | the content in a fenced block for a file, the error otherwise, and nothing changes |
| Commands.Classify | app.js:444-564 | the `switch (command)` on the lower-cased first token. Every branch is stated by a lemma: `ClassifyHelp`; `ClassifyListPath`, `ClassifyListKeyword` and `ClassifyListAlone` for `ls`/`list` with its splice; `ClassifyFolderKeyword` and `ClassifyFolderKeywordAlone` for the `folder` keyword; `ClassifyMkdir`, `CreateFileIsUnreachable`, `RmdirTakesNextWordAsFolder`, `ClassifyRmdirAlone`, `ClassifyDeleteFile`, `BareDeleteDeletesFile`, `ClassifyWrite`, `WriteNeedsContent`, `ClassifyRead`, `MissingArgumentsGetUsage` and `UnknownFirstWord` for the rest |
| Commands.Perform | app.js:448-564 | every action leaves a root directory |
| Commands.ErrorReply | app.js:341 | every tool failure is reported with the `Error:` prefix |
| Commands.HintText | app.js:468-562 | no usage hint or unknown-command message starts like an error |
| Commands.Listing | app.js:326-338 | a listing, empty or not, is never an error reply |
| Commands.Finish | app.js:565-569 | a thrown fault is caught and replaced by the generic reply; `ProcessRuns` states it |
| Commands.Process | app.js:437-572 | every command leaves a root directory |
| CommandProperties.ProcessRuns | app.js:437-572 | a non-blank command performs what the dispatcher chose, and a throw becomes the generic reply |
| CommandProperties.PerformsTool | app.js:448-564 | `read file`, `write file` and `delete folder` go to their tools, a throw is abrupt, and every other action completes normally |
| CommandProperties.PerformKeepsValid | app.js:448-564 | every action keeps the tree invariant |
| CommandProperties.ProcessKeepsValid | app.js:437-572 | every command keeps the tree invariant |
| CommandProperties.PerformErrorChangesNothing | app.js:323-399 | an action whose reply is an error changed neither the tree nor the explorer nor the open path |
| CommandProperties.ErrorRepliesChangeNothing | app.js:437-572 | a command whose reply begins with `Error: ` changed nothing |
| CommandProperties.BlankCommand | app.js:438-442 | a blank command only asks for one |
| CommandProperties.CommandWordIgnoresCase | app.js:444 | the command word is matched without regard to case |
| CommandProperties.UnknownFirstWord | app.js:556-562 | an unknown first word gets the generic hint |
| CommandProperties.CreateFileIsUnreachable | app.js:461-530 | `create file …` gets the `create folder` usage message, because the first `create` label wins |
| CommandProperties.BareDeleteDeletesFile | app.js:500-505 | `delete <p>` without a keyword deletes a file |
| CommandProperties.RmdirTakesNextWordAsFolder | app.js:487-490 | `rmdir <p>` deletes a folder, even when `<p>` is `file` |
| CommandProperties.ClassifyRmdirAlone | app.js:510-513 | `rmdir` alone reaches `parts[1].replace` on `undefined` |
| CommandProperties.RmdirAloneFails | app.js:508-568 | `rmdir` alone gives the generic reply and changes nothing |
| CommandProperties.DeleteFolderWithNoOpenFile | app.js:362-377 | deleting an empty folder while no file is open removes it, yet replies with the generic error and leaves the explorer where it was |
| CommandProperties.WriteNeedsContent | app.js:532-539 | `write file` with fewer than four tokens gives its usage message |
| CommandProperties.ClassifyWrite | app.js:531-536 | `write file p c…` writes the unquoted path with the joined, outer-unquoted content |
| CommandProperties.ClassifyRead | app.js:544-548 | `read file p` reads the unquoted path |
| CommandProperties.KeywordWords | app.js:444 | the keywords `write`, `read` and `file` are plain lower-case words |
| CommandProperties.WriteCommandClassified | app.js:437-536 | a typed `write file` command with plain words asks to write the words joined by single spaces |
| CommandProperties.WriteCommandText | app.js:437-572 | `write file p w…` updates exactly when `p` is a file, and afterwards `p` reads back as the words |
| CommandProperties.WriteTokens | app.js:438 | `write file p w…` of plain words splits back into exactly those words |
| CommandProperties.PlainContent | app.js:535 | content of plain words joined by spaces keeps every character when its outer quotes are stripped |
| CommandProperties.WriteEffect | app.js:379-390 | performing a write updates exactly when the path is a file, the file then reads back the content, and the explorer and open path stay |
| CommandProperties.ReadCommandClassified | app.js:437-548 | a typed `read file` command with a plain path asks to read that path |
| CommandProperties.ReadCommandText | app.js:437-572 | `read file p` shows the file's content, or the error when there is no file, and changes nothing |
| CommandProperties.ReadEffect | app.js:392-399 | performing a read shows the fenced content of a file, or the error otherwise, and changes nothing |
| CommandProperties.ClassifyMkdir | app.js:461-472 | `mkdir p` asks to create the unquoted folder `p`, unless `p` is the word `folder` |
| CommandProperties.ClassifyDeleteFile | app.js:493-496 | `delete file p` asks to delete the unquoted file `p` |
| CommandProperties.AddFolderEffect | app.js:807-815 | the tree afterwards is `createDirectory`'s; success exactly when nothing is at the path and no file is on the way; then the folder and each missing ancestor appear, every other position stays, and the explorer shows the parent. An error changes nothing |
| CommandProperties.MkdirCommandClassified | app.js:437-472 | a typed `mkdir p` with a plain path other than `folder` splits into `mkdir` and `p` and asks to create folder `p` |
| CommandProperties.MkdirCommandText | app.js:437-572 | `mkdir p` leaves `createDirectory`'s tree; it succeeds exactly when nothing is at `p` and no file is on the way, and then `p` is a directory and the explorer shows the parent. An error reply means nothing changed |
| CommandProperties.DeleteFileEffect | app.js:345-360 | the tree afterwards is `deleteFile`'s; success exactly for a file; then that position alone is gone, the explorer shows the parent and an open copy is closed. An error changes nothing |
| CommandProperties.DeleteFileCommandClassified | app.js:437-496 | a typed `delete file p` with a plain path splits into its three words and asks to delete file `p` |
| CommandProperties.DeleteFileCommandText | app.js:437-572 | `delete file p` leaves `deleteFile`'s tree; it succeeds exactly when `p` is a file, and then nothing is at `p`, the explorer shows the parent and an open copy is closed. An error reply means nothing changed |
| CommandProperties.DeleteFolderEffect | app.js:362-377 | the tree afterwards is `deleteDirectory`'s; the folder goes exactly when it is an empty directory, and then that position alone is gone. With no file open the reply is the generic error and the explorer stays; with one open the reply is an error exactly when nothing was deleted. A refused delete changes nothing |
| CommandProperties.RmdirCommandClassified | app.js:437-489 | a typed `rmdir p` with a plain path other than `folder` splits into `rmdir` and `p` and asks to delete folder `p` |
| CommandProperties.RmdirCommandText | app.js:437-572 | `rmdir p` leaves `deleteDirectory`'s tree; the folder goes exactly when it is an empty directory, and then nothing is at `p`. With no file open the reply is the generic error even so; with one open the reply is an error exactly when nothing was deleted. A refused delete changes nothing |
| CommandProperties.ClassifyHelp | app.js:449-451 | `help` asks for the help text whatever follows it |
| CommandProperties.HelpCommandText | app.js:437-572 | typing `help` replies with the help text and changes nothing |
| CommandProperties.ClassifyListPath | app.js:452-459 | `ls p` or `list p` lists the unquoted `p` when `p` is not the keyword `files` or `file`; an empty token counts as no path |
| CommandProperties.ClassifyListKeyword | app.js:452-459 | `ls files [p]` splices the keyword out and lists the unquoted next token, or the explorer's directory when there is none |
| CommandProperties.ClassifyListAlone | app.js:452-459 | `ls` alone lists the explorer's directory |
| CommandProperties.ClassifyFolderKeyword | app.js:461-486 | `mkdir folder p` and `create folder p` create the unquoted `p`; `rmdir folder p` and `delete folder p` delete it |
| CommandProperties.ClassifyFolderKeywordAlone | app.js:461-486 | the `folder` keyword with no path gets the usage message of its command |
| CommandProperties.MissingArgumentsGetUsage | app.js:461-562 | `mkdir` or `delete` alone, `create` without `folder`, `delete file`, `read file` without a path, and `write`/`read` without `file` each get their usage message |
| CommandProperties.ListEffect | app.js:323-343 | performing a listing changes nothing; the reply is an error exactly when the target is not a directory, and otherwise the empty message or the header and one line per item in order |
| CommandProperties.ListCommandClassified | app.js:437-459 | a typed `ls p` with a plain path other than `files`/`file` splits into `ls` and `p` and asks to list `p` |
| CommandProperties.ListCommandText | app.js:437-572 | `ls p` lists the children of the directory at `p` in insertion order, or replies with the error when there is no directory there, and changes nothing |
| CommandProperties.ListAloneCommandText | app.js:437-572 | `ls` alone lists the directory the explorer shows, in the same way, and changes nothing |
| CommandProperties.ListingKnowsEveryType | app.js:323-343 | in a valid tree every listed item is shown as `file` or `directory`, never `unknown type` |
| Tree.OrderAt | app.js:220-239 | the key order of the directory at a position, as `Object.keys` reports it |
| TreeProperties.OrderSetAt | app.js:124-215 | replacing the node at a position changes the key orders at and below it only |
| TreeProperties.UpdateFileOrder | app.js:124-144 | updating a file changes no directory's key order |
| TreeProperties.WithoutKeepsOrder | app.js:175 | `delete` of a key removes that key alone from the order and keeps the others' order |
| TreeProperties.DetachOrder | app.js:149-215 | detaching a node removes its name from its parent's order, leaves no order at or below its position, and keeps every other order |
| TreeProperties.RemovedOrder | app.js:175 | after `delete d.children[name]` the directory's order lacks `name`, nothing is below `name`, and the other children's orders stay |
| TreeProperties.DetachOrderBelow | app.js:149-215 | at and below the parent directory, detaching a child leaves the orders `DetachOrder` states |
| TreeProperties.DeleteFileOrder | app.js:149-177 | after a successful `deleteFile`, the parent's order loses the name and every other directory's order is unchanged |
| TreeProperties.DeleteDirectoryOrder | app.js:182-215 | after a successful `deleteDirectory`, the parent's order loses the name, the folder's own order is gone, and every other order is unchanged |
| TreeProperties.CreateInOrder | app.js:64-96 | after a successful loop, each directory on the path has the next name appended to its order when that name was new, the new leaf has an empty order if it is a directory, and every other order is unchanged |
| TreeProperties.CreateInOrderStep | app.js:65-78 | one intermediate step: if the walk below the next directory leaves the orders described by `CreatedOrder`, so does the whole loop, the next name being appended to the current order when it was new |
| TreeProperties.CreatedOrderCons | app.js:65-78 | the orders expected below a directory are those expected below the child the loop enters, one segment shorter |
| TreeProperties.CreateInOrderLast | app.js:81-96 | the last step: the leaf's name is appended to its parent's order, the leaf has an empty order if it is a directory, and nothing else below changes |
| TreeProperties.CreateOrder | app.js:54-97 | after a successful create, the orders along the path grow by the names that were new, and every other order is unchanged |
| TreeProperties.CreatedNameLast | app.js:54-97 | after a successful create, the new name is the last key of its parent directory |
| TreeProperties.ListedItemIsChild | app.js:220-239 | every listed name is a child of the listed directory, one segment below it |
| TreeProperties.ListedItemResolves | app.js:330-336 | the path built for a listed name resolves to that child |

## Left out

- The DOM and its event wiring are not modelled. That covers
  `renderFileExplorer`, `displayMessage`, the click, keypress and blur
  listeners, and the editor textarea and save button. Where a `tool_*`
  function calls `renderFileExplorer(p)`, the model only sets the explorer
  path to `p`, which is what that call stores.
- `console.error` / `console.log` output is not modelled. It carries no state.
- The mention autocomplete (app.js:588-673) is left out. It is timers and DOM.
- Persistence: the program has none.
- The startup seeding calls (app.js:776-781) are not modelled. They are
  ordinary `createDirectory`/`createFile` calls, which `Vfs` models.
- Sorting in the explorer view (`localeCompare`) is left out. It is
  presentation only.
- `processUserCommand` is a pure function over the tree and the two UI
  paths. The source instead reassigns `resultMessage` and the globals in
  place. The `parts.splice` of `ls files` is a sequence slice.
- Children are a `map<string, Node>` plus an insertion-order list, so the
  model leaves out two JavaScript object behaviours:
  - JavaScript object keys that look like array indices are enumerated
    before the others. The model keeps insertion order for all keys.
  - A segment such as `constructor` or `__proto__` is "found" through the
    object prototype in JavaScript. The model finds only real children.
- The VFS nodes are values, so aliasing between nodes is not modelled. The
  source shares nodes by reference but never aliases a node into two places.
- Tokenizer.LowerChar: lower-cases ASCII `A`-`Z` and the Kelvin sign, which
  `toLowerCase` maps to `k`. Apart from the ASCII letters, every character
  keeps a lower case that is not a single ASCII letter: it stays non-ASCII, or (U+0130) becomes `i`
  followed by a combining dot. So no other case mapping can produce a
  keyword, and the model leaves those characters as they are.
- Tokenizer.IsSpace: covers the characters JavaScript's `\s` and `trim()`
  treat as white space. The UTF-16 surrogate representation of strings is
  not modelled.
- `getAllFilePaths` enumerates `currentVfsNode.children` with `for … in`,
  which runs zero times over a missing object. The model has no node without
  children: every directory carries its map and order.
