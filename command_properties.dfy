/**
 * What `processUserCommand` promises, and the quirks of its dispatch, stated
 * over the model of module `Commands`.
 */
module CommandProperties {
  import opened Wrappers
  import opened Paths
  import opened Tokenizer
  import opened Commands
  import Tree
  import TreeProperties

  // ---------------------------------------------------------------------
  // Every command

  /** A non-blank command performs the action the dispatcher chose for its tokens. */
  lemma ProcessRuns(tree: Tree.Node, ui: Ui, commandString: string, action: Action)
    requires tree.Dir?
    requires |Tokenize(commandString)| > 0 && Classify(Tokenize(commandString)) == action
    ensures Process(tree, ui, commandString) == Finish(Perform(tree, ui, action))
  {
  }

  /** Each action runs its own tool; only a folder delete can throw. */
  lemma PerformsTool(tree: Tree.Node, ui: Ui, action: Action)
    requires tree.Dir?
    ensures action.ReadFile? ==> Perform(tree, ui, action) == ToolReadFile(tree, ui, action.path)
    ensures action.WriteFile? ==> Perform(tree, ui, action) == ToolWriteFile(tree, ui, action.path, action.content)
    ensures action.DeleteFolder? ==> Perform(tree, ui, action) == ToolDeleteFolder(tree, ui, action.path)
    ensures action.Fault? ==> Perform(tree, ui, action) == Abrupt(tree, ui)
    ensures !action.DeleteFolder? && !action.Fault? ==> Perform(tree, ui, action).Normal?
  {
  }

  /** Whatever the action, the tree stays well formed. */
  lemma PerformKeepsValid(tree: Tree.Node, ui: Ui, action: Action)
    requires Tree.ValidRoot(tree)
    ensures Tree.ValidRoot(Perform(tree, ui, action).tree)
  {
    match action
    case AddFolder(path) => TreeProperties.CreateKeepsValid(tree, path, Tree.NewDirectory);
    case DeleteFolder(path) => TreeProperties.DeleteDirectoryKeepsValid(tree, path);
    case DeleteFile(path) => TreeProperties.DeleteFileKeepsValid(tree, path);
    case WriteFile(path, content) => TreeProperties.UpdateFileKeepsValid(tree, path, content);
    case _ =>
  }

  /** Whatever the command, the tree stays well formed. */
  lemma ProcessKeepsValid(tree: Tree.Node, ui: Ui, commandString: string)
    requires Tree.ValidRoot(tree)
    ensures Tree.ValidRoot(Process(tree, ui, commandString).tree)
  {
    var parts := Tokenize(commandString);
    if |parts| > 0 {
      ProcessRuns(tree, ui, commandString, Classify(parts));
      PerformKeepsValid(tree, ui, Classify(parts));
    }
  }

  /** An action whose reply reports an error changed nothing. */
  lemma PerformErrorChangesNothing(tree: Tree.Node, ui: Ui, action: Action)
    requires tree.Dir?
    ensures var o := Finish(Perform(tree, ui, action));
      IsErrorReply(o.reply) ==> o.tree == tree && o.ui == ui
  {
    FixedRepliesAreNoErrors();
  }

  /** A reply that reports an error comes from a call that changed nothing: not the tree, not the explorer, not the open file. */
  lemma ErrorRepliesChangeNothing(tree: Tree.Node, ui: Ui, commandString: string)
    requires tree.Dir?
    ensures IsErrorReply(Process(tree, ui, commandString).reply) ==>
      Process(tree, ui, commandString).tree == tree && Process(tree, ui, commandString).ui == ui
  {
    var parts := Tokenize(commandString);
    FixedRepliesAreNoErrors();
    if |parts| > 0 {
      ProcessRuns(tree, ui, commandString, Classify(parts));
      PerformErrorChangesNothing(tree, ui, Classify(parts));
    }
  }

  /** A command without tokens only asks for one. */
  lemma BlankCommand(tree: Tree.Node, ui: Ui, commandString: string)
    requires tree.Dir?
    requires forall k :: 0 <= k < |commandString| ==> IsSpace(commandString[k])
    ensures Process(tree, ui, commandString) == Outcome(EmptyCommand, tree, ui)
  {
    BlankHasNoTokens(commandString);
  }

  /** The command word is matched without regard to case. */
  lemma CommandWordIgnoresCase(parts: seq<string>)
    requires |parts| > 0
    ensures Classify(parts) == Classify([ToLower(parts[0])] + parts[1..])
  {
    var lowered := [ToLower(parts[0])] + parts[1..];
    ToLowerIdempotent(parts[0]);
    assert lowered[1..] == parts[1..];
    assert |lowered| == |parts|;
    if |parts| > 1 {
      assert lowered[1] == parts[1];
    }
    if |parts| > 2 {
      assert lowered[2..] == parts[2..];
      assert lowered[2] == parts[2];
    }
    if |parts| > 3 {
      assert lowered[3..] == parts[3..];
    }
  }

  /** A first word that is no command gets the generic hint. */
  lemma UnknownFirstWord(parts: seq<string>)
    requires |parts| > 0
    requires ToLower(parts[0]) !in {"help", "ls", "list", "mkdir", "create", "rmdir", "delete", "write", "read"}
    ensures Classify(parts) == Say(UnknownCommand)
  {
  }

  // ---------------------------------------------------------------------
  // Dispatch quirks kept as written

  /** `create file …` never reaches `tool_add_file`: the first `create` label wins. */
  lemma CreateFileIsUnreachable(parts: seq<string>)
    requires |parts| > 1 && ToLower(parts[0]) == "create" && ToLower(parts[1]) == "file"
    ensures Classify(parts) == Say(CreateUsage)
  {
  }

  /** `delete <p>` without a `file` or `folder` keyword deletes a file. */
  lemma BareDeleteDeletesFile(parts: seq<string>)
    requires |parts| > 1 && ToLower(parts[0]) == "delete"
    requires ToLower(parts[1]) != "file" && ToLower(parts[1]) != "folder"
    ensures Classify(parts) == DeleteFile(RemoveQuotes(parts[1]))
  {
  }

  /** `rmdir <p>` always deletes a folder, even when `<p>` is the word `file`. */
  lemma RmdirTakesNextWordAsFolder(parts: seq<string>)
    requires |parts| > 1 && ToLower(parts[0]) == "rmdir" && ToLower(parts[1]) != "folder"
    ensures Classify(parts) == DeleteFolder(RemoveQuotes(parts[1]))
  {
  }

  /** `rmdir` alone reaches `undefined.replace`. */
  lemma ClassifyRmdirAlone(parts: seq<string>)
    requires |parts| == 1 && ToLower(parts[0]) == "rmdir"
    ensures Classify(parts) == Fault
  {
  }

  /** `rmdir` alone throws; the reply is the generic one and nothing changes. */
  lemma RmdirAloneFails(tree: Tree.Node, ui: Ui, commandString: string)
    requires tree.Dir?
    requires |Tokenize(commandString)| == 1 && ToLower(Tokenize(commandString)[0]) == "rmdir"
    ensures Process(tree, ui, commandString) == Outcome(GenericError, tree, ui)
  {
    ClassifyRmdirAlone(Tokenize(commandString));
    ProcessRuns(tree, ui, commandString, Fault);
    PerformsTool(tree, ui, Fault);
  }

  /**
   * Deleting a folder while no file is open removes the folder but replies
   * with the generic error, and the explorer is not moved.
   */
  lemma DeleteFolderWithNoOpenFile(tree: Tree.Node, ui: Ui, commandString: string, path: string)
    requires tree.Dir?
    requires |Tokenize(commandString)| > 0 && Classify(Tokenize(commandString)) == DeleteFolder(path)
    requires ui.editingPath.None?
    requires Segments(path) != [] && Tree.IsDirAt(tree, Segments(path))
    requires |Tree.Lookup(tree, Segments(path)).value.children| == 0
    ensures Process(tree, ui, commandString).reply == GenericError
    ensures Process(tree, ui, commandString).ui == ui
    ensures Tree.View(Process(tree, ui, commandString).tree, Segments(path)) == None
  {
    ProcessRuns(tree, ui, commandString, DeleteFolder(path));
    TreeProperties.DeleteDirectoryOutcome(tree, path);
    TreeProperties.DeleteDirectoryView(tree, path, Segments(path));
  }

  /** `write file` needs a path and at least one word of content. */
  lemma WriteNeedsContent(parts: seq<string>)
    requires 1 < |parts| <= 3 && ToLower(parts[0]) == "write" && ToLower(parts[1]) == "file"
    ensures Classify(parts) == Say(WriteFileUsage)
  {
  }

  /** Each command given too few words, or the wrong keyword, gets its usage message. */
  lemma MissingArgumentsGetUsage(parts: seq<string>)
    requires |parts| > 0
    ensures var command := ToLower(parts[0]);
      && (command == "mkdir" && |parts| == 1 ==> Classify(parts) == Say(CreateUsage))
      && (command == "create" && (|parts| == 1 || ToLower(parts[1]) != "folder") ==> Classify(parts) == Say(CreateUsage))
      && (command == "delete" && |parts| == 1 ==> Classify(parts) == Say(DeleteUsage))
      && (command == "delete" && |parts| == 2 && ToLower(parts[1]) == "file" ==> Classify(parts) == Say(DeleteFileUsage))
      && (command == "write" && (|parts| == 1 || ToLower(parts[1]) != "file") ==> Classify(parts) == Say(WriteUsage))
      && (command == "read" && (|parts| == 1 || ToLower(parts[1]) != "file") ==> Classify(parts) == Say(ReadUsage))
      && (command == "read" && |parts| == 2 && ToLower(parts[1]) == "file" ==> Classify(parts) == Say(ReadFileUsage))
  {
  }

  // ---------------------------------------------------------------------
  // Listing

  /**
   * In a well-formed tree every listed item resolves again through its full
   * path, so a listing never says `unknown type`.
   */
  lemma ListingKnowsEveryType(tree: Tree.Node, targetPath: string, item: string)
    requires Tree.ValidRoot(tree)
    requires Tree.ListDirectoryContents(tree, targetPath).Some?
    requires item in Tree.ListDirectoryContents(tree, targetPath).value
    ensures var segs := Segments(targetPath) + [item];
      ItemLine(tree, targetPath, item) ==
        "- " + item + " (" + (if Tree.IsFileAt(tree, segs) then "file" else "directory") + ")"
  {
    TreeProperties.ListedItemResolves(tree, targetPath, item);
  }

  // ---------------------------------------------------------------------
  // From text to effect

  lemma KeywordWords()
    ensures IsWord("write") && IsWord("read") && IsWord("file")
    ensures ToLower("write") == "write" && ToLower("read") == "read" && ToLower("file") == "file"
  {
    LowerCaseWord("write");
    LowerCaseWord("read");
    LowerCaseWord("file");
  }

  /** `write file` with a path and content. */
  lemma ClassifyWrite(parts: seq<string>)
    requires |parts| > 3 && ToLower(parts[0]) == "write" && ToLower(parts[1]) == "file"
    ensures Classify(parts) == WriteFile(RemoveQuotes(parts[2]), StripOuterQuotes(Join(parts[3..], " ")))
  {
  }

  /** `read file` with a path. */
  lemma ClassifyRead(parts: seq<string>)
    requires |parts| > 2 && ToLower(parts[0]) == "read" && ToLower(parts[1]) == "file"
    ensures Classify(parts) == ReadFile(RemoveQuotes(parts[2]))
  {
  }

  /** A typed `write file` command with plain words comes back as its words. */
  lemma WriteTokens(path: string, words: seq<string>)
    requires IsWord(path) && AllWords(words)
    ensures Tokenize(Join(["write", "file", path] + words, " ")) == ["write", "file", path] + words
  {
    var parts := ["write", "file", path] + words;
    KeywordWords();
    assert AllWords(parts) by {
      forall k | 0 <= k < |parts|
        ensures IsWord(parts[k])
      {
        if k >= 3 {
          assert parts[k] == words[k - 3];
        }
      }
    }
    TokenizeWords(parts);
  }

  /** Content joined from plain words has no outer quotes to strip. */
  lemma PlainContent(words: seq<string>)
    requires AllWords(words) && words != []
    ensures StripOuterQuotes(Join(words, " ")) == Join(words, " ")
  {
    var content := Join(words, " ");
    JoinEnds(words, " ");
    var r := StripOuterQuotes(content);
    assert |r| == |content|;
  }

  /** `write file <path> <words>` with plain words asks to write the words joined by single spaces. */
  lemma WriteCommandClassified(path: string, words: seq<string>)
    requires IsWord(path) && AllWords(words) && words != []
    ensures Tokenize(Join(["write", "file", path] + words, " ")) == ["write", "file", path] + words
    ensures Classify(["write", "file", path] + words) == WriteFile(path, Join(words, " "))
  {
    var parts := ["write", "file", path] + words;
    WriteTokens(path, words);
    KeywordWords();
    assert parts[0] == "write" && parts[1] == "file" && parts[2] == path;
    assert parts[3..] == words;
    RemoveQuotesKeepsPlain(path);
    PlainContent(words);
    ClassifyWrite(parts);
  }

  /** Writing overwrites exactly an existing file, which then reads back as the new content; the globals stay. */
  lemma WriteEffect(tree: Tree.Node, ui: Ui, path: string, content: string)
    requires tree.Dir?
    ensures var o := Finish(Perform(tree, ui, WriteFile(path, content)));
      && o.tree == Tree.UpdateFile(tree, path, content).1
      && o.ui == ui
      && (!IsErrorReply(o.reply) <==> Tree.IsFileAt(tree, Segments(path)))
      && (!IsErrorReply(o.reply) ==> Tree.ReadFile(o.tree, path) == Some(content))
  {
    TreeProperties.UpdateFileOutcome(tree, path, content);
    TreeProperties.ReadAfterUpdate(tree, path, content);
  }

  /**
   * `write file <path> <words>` with plain words overwrites the file with the
   * words joined by single spaces; afterwards the file reads back as them.
   */
  lemma WriteCommandText(tree: Tree.Node, ui: Ui, path: string, words: seq<string>)
    requires tree.Dir? && IsWord(path) && AllWords(words) && words != []
    ensures var o := Process(tree, ui, Join(["write", "file", path] + words, " "));
      && o.tree == Tree.UpdateFile(tree, path, Join(words, " ")).1
      && o.ui == ui
      && (!IsErrorReply(o.reply) <==> Tree.IsFileAt(tree, Segments(path)))
      && (!IsErrorReply(o.reply) ==> Tree.ReadFile(o.tree, path) == Some(Join(words, " ")))
  {
    var content := Join(words, " ");
    WriteCommandClassified(path, words);
    ProcessRuns(tree, ui, Join(["write", "file", path] + words, " "), WriteFile(path, content));
    WriteEffect(tree, ui, path, content);
  }

  /** `read file <path>` with a plain path asks to read that path. */
  lemma ReadCommandClassified(path: string)
    requires IsWord(path)
    ensures Tokenize(Join(["read", "file", path], " ")) == ["read", "file", path]
    ensures Classify(["read", "file", path]) == ReadFile(path)
  {
    KeywordWords();
    assert AllWords(["read", "file", path]);
    TokenizeWords(["read", "file", path]);
    RemoveQuotesKeepsPlain(path);
    ClassifyRead(["read", "file", path]);
  }

  /** Reading shows the content of a file, or the error when there is none, and changes nothing. */
  lemma ReadEffect(tree: Tree.Node, ui: Ui, path: string)
    requires tree.Dir?
    ensures var o := Finish(Perform(tree, ui, ReadFile(path)));
      && o.tree == tree && o.ui == ui
      && o.reply ==
        if Tree.IsFileAt(tree, Segments(path))
        then "Content of `" + path + "`:\n```\n" + Tree.Lookup(tree, Segments(path)).value.content + "\n```"
        else ErrorReply("Could not read file `" + path + "`. It might not exist or is not a file.")
  {
    PerformsTool(tree, ui, ReadFile(path));
  }

  /** `read file <path>` with a plain path shows the file's content, or an error when there is no file there. */
  lemma ReadCommandText(tree: Tree.Node, ui: Ui, path: string)
    requires tree.Dir? && IsWord(path)
    ensures var o := Process(tree, ui, Join(["read", "file", path], " "));
      && o.tree == tree && o.ui == ui
      && o.reply ==
        if Tree.IsFileAt(tree, Segments(path))
        then "Content of `" + path + "`:\n```\n" + Tree.Lookup(tree, Segments(path)).value.content + "\n```"
        else ErrorReply("Could not read file `" + path + "`. It might not exist or is not a file.")
  {
    ReadCommandClassified(path);
    ProcessRuns(tree, ui, Join(["read", "file", path], " "), ReadFile(path));
    ReadEffect(tree, ui, path);
  }

  // ---------------------------------------------------------------------
  // mkdir, delete file, rmdir

  /** `mkdir <p>` creates a folder, unless `<p>` is the word `folder`. */
  lemma ClassifyMkdir(parts: seq<string>)
    requires |parts| > 1 && ToLower(parts[0]) == "mkdir" && ToLower(parts[1]) != "folder"
    ensures Classify(parts) == AddFolder(RemoveQuotes(parts[1]))
  {
  }

  /** `delete file <p>` deletes a file. */
  lemma ClassifyDeleteFile(parts: seq<string>)
    requires |parts| > 2 && ToLower(parts[0]) == "delete" && ToLower(parts[1]) == "file"
    ensures Classify(parts) == DeleteFile(RemoveQuotes(parts[2]))
  {
  }

  /**
   * Creating a folder succeeds exactly when nothing is at the path and no file
   * lies on the way; then the folder and every missing ancestor appear, all
   * else stays, and the explorer shows the parent. An error changes nothing.
   */
  lemma AddFolderEffect(tree: Tree.Node, ui: Ui, path: string, q: seq<string>)
    requires tree.Dir?
    ensures var o := Finish(Perform(tree, ui, AddFolder(path)));
      var segs := Segments(path);
      && o.tree == Tree.CreateDirectory(tree, path).1
      && (!IsErrorReply(o.reply) <==>
            segs != [] && Tree.Lookup(tree, segs).None? && TreeProperties.NoFileAbove(tree, segs))
      && (IsErrorReply(o.reply) ==> o.tree == tree && o.ui == ui)
      && (!IsErrorReply(o.reply) ==>
            && o.ui == ui.(explorerPath := GetParentPath(path))
            && Tree.View(o.tree, q) ==
                 if q == segs then Some(Tree.DirEntry)
                 else if Tree.IsPrefix(q, segs) && Tree.Lookup(tree, q).None? then Some(Tree.DirEntry)
                 else Tree.View(tree, q))
  {
    TreeProperties.CreateOutcome(tree, path, Tree.NewDirectory);
    TreeProperties.CreateView(tree, path, Tree.NewDirectory, q);
  }

  /** `mkdir <p>` with a plain path other than `folder` asks to create that folder. */
  lemma MkdirCommandClassified(path: string)
    requires IsWord(path) && ToLower(path) != "folder"
    ensures Tokenize(Join(["mkdir", path], " ")) == ["mkdir", path]
    ensures Classify(["mkdir", path]) == AddFolder(path)
  {
    LowerCaseWord("mkdir");
    assert AllWords(["mkdir", path]);
    TokenizeWords(["mkdir", path]);
    RemoveQuotesKeepsPlain(path);
    ClassifyMkdir(["mkdir", path]);
  }

  /**
   * `mkdir <path>` typed with a plain path creates that folder exactly when
   * nothing is at the path and no file is on the way; the folder then resolves
   * to a new empty directory and the explorer shows its parent.
   */
  lemma MkdirCommandText(tree: Tree.Node, ui: Ui, path: string)
    requires tree.Dir? && IsWord(path) && ToLower(path) != "folder"
    ensures var o := Process(tree, ui, Join(["mkdir", path], " "));
      var segs := Segments(path);
      && o.tree == Tree.CreateDirectory(tree, path).1
      && (!IsErrorReply(o.reply) <==>
            segs != [] && Tree.Lookup(tree, segs).None? && TreeProperties.NoFileAbove(tree, segs))
      && (IsErrorReply(o.reply) ==> o.tree == tree && o.ui == ui)
      && (!IsErrorReply(o.reply) ==>
            o.ui == ui.(explorerPath := GetParentPath(path)) && Tree.View(o.tree, segs) == Some(Tree.DirEntry))
  {
    MkdirCommandClassified(path);
    ProcessRuns(tree, ui, Join(["mkdir", path], " "), AddFolder(path));
    AddFolderEffect(tree, ui, path, Segments(path));
  }

  /**
   * Deleting a file succeeds exactly on a file; then that one entry is gone,
   * the explorer shows the parent and an open copy is closed. An error changes nothing.
   */
  lemma DeleteFileEffect(tree: Tree.Node, ui: Ui, path: string, r: seq<string>)
    requires tree.Dir?
    ensures var o := Finish(Perform(tree, ui, DeleteFile(path)));
      && o.tree == Tree.DeleteFile(tree, path).1
      && (!IsErrorReply(o.reply) <==> Tree.IsFileAt(tree, Segments(path)))
      && (IsErrorReply(o.reply) ==> o.tree == tree && o.ui == ui)
      && (!IsErrorReply(o.reply) ==>
            && o.ui == Ui(GetParentPath(path), if ui.editingPath == Some(path) then None else ui.editingPath)
            && Tree.View(o.tree, r) == if r == Segments(path) then None else Tree.View(tree, r))
  {
    TreeProperties.DeleteFileOutcome(tree, path);
    TreeProperties.DeleteFileView(tree, path, r);
  }

  /** `delete file <p>` with a plain path asks to delete that file. */
  lemma DeleteFileCommandClassified(path: string)
    requires IsWord(path)
    ensures Tokenize(Join(["delete", "file", path], " ")) == ["delete", "file", path]
    ensures Classify(["delete", "file", path]) == DeleteFile(path)
  {
    LowerCaseWord("delete");
    LowerCaseWord("file");
    assert AllWords(["delete", "file", path]);
    TokenizeWords(["delete", "file", path]);
    RemoveQuotesKeepsPlain(path);
    ClassifyDeleteFile(["delete", "file", path]);
  }

  /**
   * `delete file <path>` typed with a plain path deletes exactly an existing
   * file; afterwards the path reads as null and the explorer shows the parent.
   */
  lemma DeleteFileCommandText(tree: Tree.Node, ui: Ui, path: string)
    requires tree.Dir? && IsWord(path)
    ensures var o := Process(tree, ui, Join(["delete", "file", path], " "));
      && o.tree == Tree.DeleteFile(tree, path).1
      && (!IsErrorReply(o.reply) <==> Tree.IsFileAt(tree, Segments(path)))
      && (IsErrorReply(o.reply) ==> o.tree == tree && o.ui == ui)
      && (!IsErrorReply(o.reply) ==>
            && o.ui == Ui(GetParentPath(path), if ui.editingPath == Some(path) then None else ui.editingPath)
            && Tree.View(o.tree, Segments(path)) == None)
  {
    DeleteFileCommandClassified(path);
    ProcessRuns(tree, ui, Join(["delete", "file", path], " "), DeleteFile(path));
    DeleteFileEffect(tree, ui, path, Segments(path));
  }

  /**
   * Deleting a folder removes it exactly when it is an empty directory, and
   * then that one entry is gone. With a file open the reply says so and the
   * explorer shows the parent; with none open the reply is the generic error
   * and the explorer stays. A refused delete changes nothing.
   */
  lemma DeleteFolderEffect(tree: Tree.Node, ui: Ui, path: string, r: seq<string>)
    requires tree.Dir?
    ensures var o := Finish(Perform(tree, ui, DeleteFolder(path)));
      var segs := Segments(path);
      var done := Tree.DeleteDirectory(tree, path).0;
      && o.tree == Tree.DeleteDirectory(tree, path).1
      && (done <==> segs != [] && Tree.IsDirAt(tree, segs) && |Tree.Lookup(tree, segs).value.children| == 0)
      && (done ==> Tree.View(o.tree, r) == if r == segs then None else Tree.View(tree, r))
      && (done && ui.editingPath.None? ==> o.reply == GenericError && o.ui == ui)
      && (ui.editingPath.Some? ==> (!IsErrorReply(o.reply) <==> done))
      && (done && ui.editingPath.Some? ==> o.ui.explorerPath == GetParentPath(path))
      && (!done ==> IsErrorReply(o.reply) && o.tree == tree && o.ui == ui)
  {
    PerformsTool(tree, ui, DeleteFolder(path));
    TreeProperties.DeleteDirectoryOutcome(tree, path);
    TreeProperties.DeleteDirectoryView(tree, path, r);
  }

  /** `rmdir <p>` with a plain path other than `folder` asks to delete that folder. */
  lemma RmdirCommandClassified(path: string)
    requires IsWord(path) && ToLower(path) != "folder"
    ensures Tokenize(Join(["rmdir", path], " ")) == ["rmdir", path]
    ensures Classify(["rmdir", path]) == DeleteFolder(path)
  {
    LowerCaseWord("rmdir");
    assert AllWords(["rmdir", path]);
    TokenizeWords(["rmdir", path]);
    RemoveQuotesKeepsPlain(path);
    RmdirTakesNextWordAsFolder(["rmdir", path]);
  }

  /**
   * `rmdir <path>` typed with a plain path removes exactly an empty folder.
   * With no file open the reply is the generic error all the same; a refused
   * delete is an error reply and changes nothing.
   */
  lemma RmdirCommandText(tree: Tree.Node, ui: Ui, path: string)
    requires tree.Dir? && IsWord(path) && ToLower(path) != "folder"
    ensures var o := Process(tree, ui, Join(["rmdir", path], " "));
      var segs := Segments(path);
      var done := Tree.DeleteDirectory(tree, path).0;
      && o.tree == Tree.DeleteDirectory(tree, path).1
      && (done <==> segs != [] && Tree.IsDirAt(tree, segs) && |Tree.Lookup(tree, segs).value.children| == 0)
      && (done ==> Tree.View(o.tree, segs) == None)
      && (done && ui.editingPath.None? ==> o.reply == GenericError && o.ui == ui)
      && (ui.editingPath.Some? ==> (!IsErrorReply(o.reply) <==> done))
      && (!done ==> IsErrorReply(o.reply) && o.tree == tree && o.ui == ui)
  {
    RmdirCommandClassified(path);
    ProcessRuns(tree, ui, Join(["rmdir", path], " "), DeleteFolder(path));
    DeleteFolderEffect(tree, ui, path, Segments(path));
  }

  // ---------------------------------------------------------------------
  // help, ls / list, and the `folder` keyword

  /** `help` shows the help text, whatever follows it. */
  lemma ClassifyHelp(parts: seq<string>)
    requires |parts| > 0 && ToLower(parts[0]) == "help"
    ensures Classify(parts) == ShowHelp
  {
  }

  /** Typing `help` shows the help text and changes nothing. */
  lemma HelpCommandText(tree: Tree.Node, ui: Ui)
    requires tree.Dir?
    ensures Process(tree, ui, "help") == Outcome(HelpMessage, tree, ui)
  {
    LowerCaseWord("help");
    assert Join(["help"], " ") == "help";
    TokenizeWords(["help"]);
    ProcessRuns(tree, ui, "help", ShowHelp);
  }

  /** `ls <p>` lists the unquoted `<p>`, unless `<p>` is the keyword `files` or `file`; an empty token counts as no path. */
  lemma ClassifyListPath(parts: seq<string>)
    requires |parts| > 1 && (ToLower(parts[0]) == "ls" || ToLower(parts[0]) == "list")
    requires ToLower(parts[1]) != "files" && ToLower(parts[1]) != "file"
    ensures Classify(parts) == ListFiles(if parts[1] == "" then None else Some(RemoveQuotes(parts[1])))
  {
  }

  /** `ls files [<p>]`: the keyword is spliced out and the next token, if any, is the path. */
  lemma ClassifyListKeyword(parts: seq<string>)
    requires |parts| > 1 && (ToLower(parts[0]) == "ls" || ToLower(parts[0]) == "list")
    requires ToLower(parts[1]) == "files" || ToLower(parts[1]) == "file"
    ensures Classify(parts) == ListFiles(if |parts| > 2 && parts[2] != "" then Some(RemoveQuotes(parts[2])) else None)
  {
  }

  /** `ls` alone lists the explorer's directory. */
  lemma ClassifyListAlone(parts: seq<string>)
    requires |parts| == 1 && (ToLower(parts[0]) == "ls" || ToLower(parts[0]) == "list")
    ensures Classify(parts) == ListFiles(None)
  {
  }

  /** `mkdir folder <p>` and `create folder <p>` create, `rmdir folder <p>` and `delete folder <p>` delete. */
  lemma ClassifyFolderKeyword(parts: seq<string>)
    requires |parts| > 2 && ToLower(parts[1]) == "folder"
    ensures ToLower(parts[0]) == "mkdir" || ToLower(parts[0]) == "create" ==>
      Classify(parts) == AddFolder(RemoveQuotes(parts[2]))
    ensures ToLower(parts[0]) == "rmdir" || ToLower(parts[0]) == "delete" ==>
      Classify(parts) == DeleteFolder(RemoveQuotes(parts[2]))
  {
  }

  /** The `folder` keyword with no path gets the usage message of its command. */
  lemma ClassifyFolderKeywordAlone(parts: seq<string>)
    requires |parts| == 2 && ToLower(parts[1]) == "folder"
    ensures ToLower(parts[0]) == "mkdir" || ToLower(parts[0]) == "create" ==>
      Classify(parts) == Say(CreateFolderUsage)
    ensures ToLower(parts[0]) == "rmdir" || ToLower(parts[0]) == "delete" ==>
      Classify(parts) == Say(DeleteFolderUsage)
  {
  }

  /** Listing reports the directory's items, or the error when it is not a directory, and changes nothing. */
  lemma ListEffect(tree: Tree.Node, ui: Ui, path: Option<string>)
    requires tree.Dir?
    ensures var o := Finish(Perform(tree, ui, ListFiles(path)));
      var target := if path.None? then ui.explorerPath else path.value;
      var items := Tree.ListDirectoryContents(tree, target);
      && o.tree == tree && o.ui == ui
      && (IsErrorReply(o.reply) <==> items.None?)
      && (items.Some? ==>
            o.reply == if items.value == [] then "Directory `" + target + "` is empty."
                       else "Contents of `" + target + "`:\n" + Join(ItemLines(tree, target, items.value), "\n"))
  {
  }

  /** `ls <path>` with a plain path other than `files` / `file` asks to list that path. */
  lemma ListCommandClassified(path: string)
    requires IsWord(path) && ToLower(path) != "files" && ToLower(path) != "file"
    ensures Tokenize(Join(["ls", path], " ")) == ["ls", path]
    ensures Classify(["ls", path]) == ListFiles(Some(path))
  {
    LowerCaseWord("ls");
    assert AllWords(["ls", path]);
    TokenizeWords(["ls", path]);
    RemoveQuotesKeepsPlain(path);
    ClassifyListPath(["ls", path]);
  }

  /**
   * `ls <path>` typed with a plain path lists exactly the children of the
   * directory at that path, in insertion order, or replies with the error when
   * there is no directory there; nothing changes.
   */
  lemma ListCommandText(tree: Tree.Node, ui: Ui, path: string)
    requires tree.Dir? && IsWord(path) && ToLower(path) != "files" && ToLower(path) != "file"
    ensures var o := Process(tree, ui, Join(["ls", path], " "));
      var items := Tree.ListDirectoryContents(tree, path);
      && o.tree == tree && o.ui == ui
      && (IsErrorReply(o.reply) <==> items.None?)
      && (items.Some? ==>
            o.reply == if items.value == [] then "Directory `" + path + "` is empty."
                       else "Contents of `" + path + "`:\n" + Join(ItemLines(tree, path, items.value), "\n"))
  {
    ListCommandClassified(path);
    ProcessRuns(tree, ui, Join(["ls", path], " "), ListFiles(Some(path)));
    ListEffect(tree, ui, Some(path));
  }

  /** Typing `ls` alone lists the directory the explorer shows, and changes nothing. */
  lemma ListAloneCommandText(tree: Tree.Node, ui: Ui)
    requires tree.Dir?
    ensures var o := Process(tree, ui, "ls");
      var target := ui.explorerPath;
      var items := Tree.ListDirectoryContents(tree, target);
      && o.tree == tree && o.ui == ui
      && (IsErrorReply(o.reply) <==> items.None?)
      && (items.Some? ==>
            o.reply == if items.value == [] then "Directory `" + target + "` is empty."
                       else "Contents of `" + target + "`:\n" + Join(ItemLines(tree, target, items.value), "\n"))
  {
    LowerCaseWord("ls");
    assert Join(["ls"], " ") == "ls";
    TokenizeWords(["ls"]);
    ProcessRuns(tree, ui, "ls", ListFiles(None));
    ListEffect(tree, ui, None);
  }
}
