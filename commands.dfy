/**
 * The chat command layer: `processUserCommand` (app.js:437-572), the
 * `tool_*` functions it calls (app.js:323-399, app.js:797-815) and the
 * globals they update, `currentExplorerPath` and `currentlyEditingPath`
 * (app.js:292, app.js:305). A command is the tree and the two globals before,
 * the command text, and the one reply shown with the tree and globals after.
 *
 * Dispatch is split in two: `Classify` is the `switch` on the tokens (which
 * tool to call, with which arguments, or which fixed message to show), and
 * `Perform` runs the chosen tool. A JavaScript exception is a `Completion`
 * of kind `Abrupt`, which keeps whatever the tool changed before it threw;
 * the `catch` of app.js:566-568 turns it into the generic reply.
 */
module Commands {
  import opened Wrappers
  import opened Paths
  import opened Tokenizer
  import Tree
  import TreeProperties

  /** `currentExplorerPath` and `currentlyEditingPath` (`null` is None). */
  datatype Ui = Ui(explorerPath: string, editingPath: Option<string>)

  /** How a call returns: normally with a reply, or by throwing after having changed `tree` and `ui`. */
  datatype Completion =
    | Normal(reply: string, tree: Tree.Node, ui: Ui)
    | Abrupt(tree: Tree.Node, ui: Ui)

  /** What one command leaves: the single message shown, the tree, and the globals. */
  datatype Outcome = Outcome(reply: string, tree: Tree.Node, ui: Ui)

  /** `HELP_MESSAGE` (app.js:419-435). */
  const HelpMessage: string :=
    "Available AI Copilot commands:\n" + (
    "- `help`: Shows this help message.\n" +
    "- `create file <path> [content]`: Creates a new file with optional content.\n" +
    "    Example: create file /my_file.txt Hello world\n" +
    "- `write file <path> <content>`: Writes (overwrites) content to a file.\n" +
    "    Example: write file /my_file.txt New content\n" +
    "- `read file <path>`: Displays the content of a file.\n" +
    "    Example: read file /my_file.txt\n" +
    "- `delete file <path>`: Deletes a file.\n" +
    "    Example: delete file /my_file.txt\n" +
    "- `create folder <path>` or `mkdir <path>`: Creates a new directory.\n" +
    "    Example: create folder /my_docs\n" +
    "- `delete folder <path>` or `rmdir <path>`: Deletes an empty directory.\n" +
    "    Example: delete folder /my_docs\n" +
    "- `list files [path]` or `ls [path]`: Lists files and directories. Path is optional, defaults to current explorer view.\n" +
    "    Example: ls /documents\n" +
    "    Example: ls")

  const GenericError := "An unexpected error occurred " + "while processing the command."
  const EmptyCommand := "Please enter a command."

  /** An error reply of a `tool_*` function. */
  predicate IsErrorReply(reply: string) {
    |reply| >= 7 && reply[..7] == "Error: "
  }

  /** A `tool_*` error reply. */
  function ErrorReply(message: string): (reply: string)
    ensures IsErrorReply(reply)
  {
    "Error: " + message
  }

  /** A reply that does not start with `E` is not an error reply. */
  lemma NotAnError(reply: string)
    requires reply != [] && reply[0] != 'E'
    ensures !IsErrorReply(reply)
  {
  }

  /** None of the fixed replies of `processUserCommand` is an error reply. */
  lemma FixedRepliesAreNoErrors()
    ensures !IsErrorReply(HelpMessage) && !IsErrorReply(GenericError) && !IsErrorReply(EmptyCommand)
  {
    NotAnError(HelpMessage); NotAnError(GenericError); NotAnError(EmptyCommand);
  }

  /** The fixed usage messages and hints the `switch` answers with when no tool applies. */
  datatype Hint =
    | CreateUsage
    | CreateFolderUsage
    | DeleteFolderUsage
    | DeleteFileUsage
    | DeleteUsage
    | WriteFileUsage
    | WriteUsage
    | ReadFileUsage
    | ReadUsage
    | UnknownCommand

  /** The text of each hint; none of them reads as an error reply. */
  function HintText(hint: Hint): (text: string)
    ensures !IsErrorReply(text)
  {
    var text := match hint {
      case CreateUsage => "Unknown command or missing argument. " + "Usage: create folder <path> or mkdir <path>"
      case CreateFolderUsage => "Missing path for create folder. " + "Usage: create folder <path>"
      case DeleteFolderUsage => "Missing path for delete folder. " + "Usage: delete folder <path>"
      case DeleteFileUsage => "Missing path for delete file. " + "Usage: delete file <path>"
      case DeleteUsage => "Unknown 'delete' command usage. " + "Options: delete file <path>, delete folder <path>."
      case WriteFileUsage => "Missing path or content for write file. " + "Usage: write file <path> <content>"
      case WriteUsage => "Unknown 'write' command. " + "Did you mean 'write file <path> <content>'?"
      case ReadFileUsage => "Missing path for read file. " + "Usage: read file <path>"
      case ReadUsage => "Unknown 'read' command. " + "Did you mean 'read file <path>'?"
      case UnknownCommand => "Unknown command. " + "Type 'help' for a list of commands."
    };
    NotAnError(text);
    text
  }

  // ---------------------------------------------------------------------
  // tool_list_files (app.js:323-343)

  /** `itemNode.type`, or `unknown type` when the item's path does not resolve to a node. */
  function TypeName(node: Option<Tree.Node>): string {
    match node
    case None => "unknown type"
    case Some(n) => if n.File? then "file" else "directory"
  }

  /** The line for one listed item: its type is looked up again through its full path. */
  function ItemLine(tree: Tree.Node, targetPath: string, item: string): string
    requires tree.Dir?
  {
    var res := Tree.Resolve(tree, ChildPath(targetPath, item));
    "- " + item + " (" + TypeName(if res.Resolved? then res.current else None) + ")"
  }

  function ItemLines(tree: Tree.Node, targetPath: string, items: seq<string>): (lines: seq<string>)
    requires tree.Dir?
    ensures |lines| == |items|
    ensures forall k :: 0 <= k < |items| ==> lines[k] == ItemLine(tree, targetPath, items[k])
  {
    if items == [] then [] else [ItemLine(tree, targetPath, items[0])] + ItemLines(tree, targetPath, items[1..])
  }

  /** The reply for a directory's items: `if (items)` holds for an empty array too. */
  function Listing(tree: Tree.Node, targetPath: string, items: seq<string>): (reply: string)
    requires tree.Dir?
    ensures !IsErrorReply(reply)
  {
    if |items| == 0 then
      var reply := "Directory `" + targetPath + "` is empty.";
      NotAnError(reply);
      reply
    else
      var reply := "Contents of `" + targetPath + "`:\n" + Join(ItemLines(tree, targetPath, items), "\n");
      NotAnError(reply);
      reply
  }

  /** `tool_list_files(path)`: `null` lists the explorer's current directory. Nothing changes. */
  function ToolListFiles(tree: Tree.Node, ui: Ui, path: Option<string>): (c: Completion)
    requires tree.Dir?
    ensures c.Normal? && c.tree == tree && c.ui == ui
    ensures var target := if path.None? then ui.explorerPath else path.value;
      IsErrorReply(c.reply) <==> Tree.ListDirectoryContents(tree, target).None?
    ensures var target := if path.None? then ui.explorerPath else path.value;
      var items := Tree.ListDirectoryContents(tree, target);
      items.Some? ==>
        c.reply == if items.value == [] then "Directory `" + target + "` is empty."
                   else "Contents of `" + target + "`:\n" + Join(ItemLines(tree, target, items.value), "\n")
  {
    var targetPath := if path.None? then ui.explorerPath else path.value;
    match Tree.ListDirectoryContents(tree, targetPath)
    case None =>
      Normal(ErrorReply("Could not list contents of `" + targetPath + "`. It might not exist or is not a directory."), tree, ui)
    case Some(items) => Normal(Listing(tree, targetPath, items), tree, ui)
  }

  // ---------------------------------------------------------------------
  // tool_add_file, tool_add_folder (app.js:797-815)

  /**
   * `tool_add_file(path, content)`. A successful create moves the explorer
   * to the parent of the new file. No command reaches it: see `Classify`.
   */
  function ToolAddFile(tree: Tree.Node, ui: Ui, path: string, content: string): (c: Completion)
    requires tree.Dir?
    ensures c.Normal?
    ensures !IsErrorReply(c.reply) <==>
      var segs := Segments(path);
      segs != [] && Tree.Lookup(tree, segs).None? && TreeProperties.NoFileAbove(tree, segs)
    ensures IsErrorReply(c.reply) ==> c.tree == tree && c.ui == ui
    ensures c.tree == Tree.CreateFile(tree, path, content).1
    ensures !IsErrorReply(c.reply) ==> c.ui == ui.(explorerPath := GetParentPath(path))
  {
    TreeProperties.CreateOutcome(tree, path, Tree.NewFile(content));
    var (ok, t) := Tree.CreateFile(tree, path, content);
    if ok then
      var reply := "File `" + path + "` created successfully.";
      NotAnError(reply);
      Normal(reply, t, ui.(explorerPath := GetParentPath(path)))
    else Normal(ErrorReply("Could not create file `" + path + "`. It might already exist or the path is invalid."), t, ui)
  }

  /** `tool_add_folder(path)`. */
  function ToolAddFolder(tree: Tree.Node, ui: Ui, path: string): (c: Completion)
    requires tree.Dir?
    ensures c.Normal?
    ensures !IsErrorReply(c.reply) <==>
      var segs := Segments(path);
      segs != [] && Tree.Lookup(tree, segs).None? && TreeProperties.NoFileAbove(tree, segs)
    ensures IsErrorReply(c.reply) ==> c.tree == tree && c.ui == ui
    ensures c.tree == Tree.CreateDirectory(tree, path).1
    ensures !IsErrorReply(c.reply) ==> c.ui == ui.(explorerPath := GetParentPath(path))
  {
    TreeProperties.CreateOutcome(tree, path, Tree.NewDirectory);
    var (ok, t) := Tree.CreateDirectory(tree, path);
    if ok then
      var reply := "Directory `" + path + "` created successfully.";
      NotAnError(reply);
      Normal(reply, t, ui.(explorerPath := GetParentPath(path)))
    else Normal(ErrorReply("Could not create directory `" + path + "`. It might already exist or the path is invalid."), t, ui)
  }

  // ---------------------------------------------------------------------
  // tool_delete_file, tool_delete_folder, tool_write_file, tool_read_file (app.js:345-399)

  /** `tool_delete_file(path)`: closes the editor when the deleted file was open in it. */
  function ToolDeleteFile(tree: Tree.Node, ui: Ui, path: string): (c: Completion)
    requires tree.Dir?
    ensures c.Normal?
    ensures !IsErrorReply(c.reply) <==> Tree.IsFileAt(tree, Segments(path))
    ensures IsErrorReply(c.reply) ==> c.tree == tree && c.ui == ui
    ensures c.tree == Tree.DeleteFile(tree, path).1
    ensures !IsErrorReply(c.reply) ==>
      && c.ui.explorerPath == GetParentPath(path)
      && c.ui.editingPath == (if ui.editingPath == Some(path) then None else ui.editingPath)
  {
    TreeProperties.DeleteFileOutcome(tree, path);
    var (ok, t) := Tree.DeleteFile(tree, path);
    if ok then
      var editing := if ui.editingPath == Some(path) then None else ui.editingPath;
      var reply := "File `" + path + "` deleted successfully.";
      NotAnError(reply);
      Normal(reply, t, Ui(GetParentPath(path), editing))
    else Normal(ErrorReply("Could not delete file `" + path + "`. It might not exist or is not a file."), t, ui)
  }

  /**
   * `tool_delete_folder(path)`. After a successful delete it computes
   * `getParentPath(currentlyEditingPath)`, which throws when no file is open:
   * the directory is gone, but the explorer is not moved and the reply is lost.
   */
  function ToolDeleteFolder(tree: Tree.Node, ui: Ui, path: string): (c: Completion)
    requires tree.Dir?
    ensures c.Abrupt? <==> Tree.DeleteDirectory(tree, path).0 && ui.editingPath.None?
    ensures c.Abrupt? ==> c.ui == ui
    ensures c.tree == Tree.DeleteDirectory(tree, path).1
    ensures c.Normal? ==> (!IsErrorReply(c.reply) <==> Tree.DeleteDirectory(tree, path).0)
    ensures c.Normal? && IsErrorReply(c.reply) ==> c.tree == tree && c.ui == ui
    ensures c.Normal? && !IsErrorReply(c.reply) ==>
      && c.ui.explorerPath == GetParentPath(path)
      && c.ui.editingPath ==
           var e := ui.editingPath.value;
           if GetParentPath(e) == path || e == path then None else ui.editingPath
  {
    TreeProperties.DeleteDirectoryOutcome(tree, path);
    var (ok, t) := Tree.DeleteDirectory(tree, path);
    if !ok then
      Normal(ErrorReply("Could not delete directory `" + path + "`. It might not exist, not be a directory, or is not empty."), t, ui)
    else match ui.editingPath
      case None => Abrupt(t, ui)
      case Some(e) =>
        var editing := if GetParentPath(e) == path || e == path then None else ui.editingPath;
        var reply := "Directory `" + path + "` deleted successfully.";
        NotAnError(reply);
        Normal(reply, t, Ui(GetParentPath(path), editing))
  }

  /** `tool_write_file(path, content)`: the explorer and the open path stay as they are. */
  function ToolWriteFile(tree: Tree.Node, ui: Ui, path: string, content: string): (c: Completion)
    requires tree.Dir?
    ensures c.Normal? && c.ui == ui
    ensures !IsErrorReply(c.reply) <==> Tree.IsFileAt(tree, Segments(path))
    ensures IsErrorReply(c.reply) ==> c.tree == tree
    ensures c.tree == Tree.UpdateFile(tree, path, content).1
  {
    TreeProperties.UpdateFileOutcome(tree, path, content);
    var (ok, t) := Tree.UpdateFile(tree, path, content);
    if ok then
      var reply := "File `" + path + "` updated successfully.";
      NotAnError(reply);
      Normal(reply, t, ui)
    else Normal(ErrorReply("Could not update file `" + path + "`. It might not exist or is not a file."), t, ui)
  }

  /** `tool_read_file(path)`: the content in a fenced block. Nothing changes. */
  function ToolReadFile(tree: Tree.Node, ui: Ui, path: string): (c: Completion)
    requires tree.Dir?
    ensures c.Normal? && c.tree == tree && c.ui == ui
    ensures c.reply ==
      if Tree.IsFileAt(tree, Segments(path))
      then "Content of `" + path + "`:\n```\n" + Tree.Lookup(tree, Segments(path)).value.content + "\n```"
      else ErrorReply("Could not read file `" + path + "`. It might not exist or is not a file.")
  {
    TreeProperties.ReadFileSpec(tree, path);
    match Tree.ReadFile(tree, path)
    case Some(content) => Normal("Content of `" + path + "`:\n```\n" + content + "\n```", tree, ui)
    case None => Normal(ErrorReply("Could not read file `" + path + "`. It might not exist or is not a file."), tree, ui)
  }

  // ---------------------------------------------------------------------
  // processUserCommand (app.js:437-572)

  /** What the `switch` decides to do with the tokens. */
  datatype Action =
    | ShowHelp
    | ListFiles(listPath: Option<string>)
    | AddFolder(path: string)
    | DeleteFolder(path: string)
    | DeleteFile(path: string)
    | WriteFile(path: string, content: string)
    | ReadFile(path: string)
    | Say(hint: Hint)
    | Fault  // `undefined.replace(...)` throws before any tool is called

  /**
   * The `switch (command)` of app.js:444-564 on a non-empty token list.
   * Only the first `case 'create'` label is ever selected, so `create file`
   * gets the usage message of app.js:475 and the second `create` case
   * (app.js:517-530) and the second branch of the `default` case are dead.
   */
  function Classify(parts: seq<string>): Action
    requires |parts| > 0
  {
    var command := ToLower(parts[0]);
    var n := |parts|;
    if command == "help" then ShowHelp
    else if command == "ls" || command == "list" then
      // `parts.splice(1, 1)` drops a `files` / `file` keyword
      var args := if n > 1 && (ToLower(parts[1]) == "files" || ToLower(parts[1]) == "file") then [parts[0]] + parts[2..] else parts;
      // `parts[1] ? … : null`: an empty token counts as no path
      ListFiles(if |args| > 1 && args[1] != "" then Some(RemoveQuotes(args[1])) else None)
    else if command == "mkdir" || command == "create" then
      if n > 1 && ToLower(parts[1]) == "folder" then
        if n > 2 then AddFolder(RemoveQuotes(parts[2])) else Say(CreateFolderUsage)
      else if command == "mkdir" && n > 1 then AddFolder(RemoveQuotes(parts[1]))
      else Say(CreateUsage)
    else if command == "rmdir" || command == "delete" then
      if n > 1 && ToLower(parts[1]) == "folder" then
        if n > 2 then DeleteFolder(RemoveQuotes(parts[2])) else Say(DeleteFolderUsage)
      else if command == "rmdir" && n > 1 then DeleteFolder(RemoveQuotes(parts[1]))
      else if n > 1 && ToLower(parts[1]) == "file" then
        if n > 2 then DeleteFile(RemoveQuotes(parts[2])) else Say(DeleteFileUsage)
      else if command == "delete" && n > 1 && ToLower(parts[1]) != "folder" then DeleteFile(RemoveQuotes(parts[1]))
      else if command != "rmdir" then Say(DeleteUsage)
      else Fault  // `rmdir` alone: `parts[1]` is undefined
    else if command == "write" then
      if n > 1 && ToLower(parts[1]) == "file" then
        if n > 3 then WriteFile(RemoveQuotes(parts[2]), StripOuterQuotes(Join(parts[3..], " ")))
        else Say(WriteFileUsage)
      else Say(WriteUsage)
    else if command == "read" then
      if n > 1 && ToLower(parts[1]) == "file" then
        if n > 2 then ReadFile(RemoveQuotes(parts[2])) else Say(ReadFileUsage)
      else Say(ReadUsage)
    else Say(UnknownCommand)
  }

  /** Runs the chosen tool against the tree and the globals. */
  function Perform(tree: Tree.Node, ui: Ui, action: Action): (c: Completion)
    requires tree.Dir?
    ensures c.tree.Dir?
  {
    match action
    case ShowHelp => Normal(HelpMessage, tree, ui)
    case ListFiles(path) => ToolListFiles(tree, ui, path)
    case AddFolder(path) => ToolAddFolder(tree, ui, path)
    case DeleteFolder(path) => ToolDeleteFolder(tree, ui, path)
    case DeleteFile(path) => ToolDeleteFile(tree, ui, path)
    case WriteFile(path, content) => ToolWriteFile(tree, ui, path, content)
    case ReadFile(path) => ToolReadFile(tree, ui, path)
    case Say(hint) =>
      var reply := HintText(hint);
      Normal(reply, tree, ui)
    case Fault => Abrupt(tree, ui)
  }

  /** The one message of a call: a thrown fault is caught and replaced by the generic reply. */
  function Finish(c: Completion): Outcome {
    match c
    case Normal(reply, t, u) => Outcome(reply, t, u)
    case Abrupt(t, u) => Outcome(GenericError, t, u)
  }

  /** `processUserCommand(commandString)`: exactly one reply per call. */
  function Process(tree: Tree.Node, ui: Ui, commandString: string): (o: Outcome)
    requires tree.Dir?
    ensures o.tree.Dir?
  {
    var parts := Tokenize(commandString);
    if |parts| == 0 then Outcome(EmptyCommand, tree, ui)
    else Finish(Perform(tree, ui, Classify(parts)))
  }
}
