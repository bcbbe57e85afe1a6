/**
 The dispatch core of the go-links redirector: the index handler turns a
 request into a command token and arguments, then resolves the command in a
 fixed order (registered command, stored bookmark, default search URL) and
 produces exactly one outcome.
 */
module Dispatcher {
  import opened Strings
  import opened Format

  const StatusOK := 200
  const StatusFound := 302
  const StatusBadRequest := 400
  const StatusInternalServerError := 500

  datatype Option<T> = None | Some(value: T)

  /** The server configuration; only `url`, the default-search template, is
      read by the dispatcher. An empty `url` means there is no fallback. */
  datatype Config = Config(title: string, fqdn: string, url: string)

  /** A registered command as one request sees it: the name it reports and
      the error its `Exec` returns for this request, if any. */
  datatype Command = Command(name: string, execError: Option<string>)

  /** The inputs of one request: the already decoded `q` parameter (query
      string or form) and the two path parameters. */
  datatype Request = Request(q: string, pathCommand: string, pathArgs: string)

  /** A request after parsing: the command token and its arguments. */
  datatype Query = Query(cmd: string, args: seq<string>)

  /** The single result of handling one request. */
  datatype Outcome =
    | Index                                                  // render the index page
    | CommandDone(command: Command, args: seq<string>)       // the command wrote its own response
    | CommandFailed(message: string)                         // the command's Exec returned an error
    | BookmarkExec(name: string, pattern: string, joined: string)  // the bookmark's Exec runs on `joined`
    | Redirect(url: string)                                  // redirect to the default search
    | BadRequest(message: string)                            // nothing matched
  {
    /** The status code the handler itself sets, when it sets one. */
    function Status(): Option<int>
    {
      match this
      case Index => Some(StatusOK)
      case CommandDone(_, _) => None
      case CommandFailed(_) => Some(StatusInternalServerError)
      case BookmarkExec(_, _, _) => None
      case Redirect(_) => Some(StatusFound)
      case BadRequest(_) => Some(StatusBadRequest)
    }

    /** The body `http.Error` writes for the error outcomes: the message and
        a newline. */
    function ErrorBody(): Option<string>
    {
      match this
      case CommandFailed(m) => Some(m + "\n")
      case BadRequest(m) => Some(m + "\n")
      case _ => None
    }
  }

  /** Where the command and arguments come from: a non-empty `q` is split on
      single spaces into the command and its arguments; otherwise the command
      is the `command` path parameter and the arguments are the `args` path
      parameter split on '/'. Nothing is trimmed or case-folded. */
  function Parse(req: Request): (p: Query)
    ensures req.q != "" ==> ' ' !in p.cmd && Join([p.cmd] + p.args, ' ') == req.q
    ensures req.q == "" ==> p.cmd == req.pathCommand && |p.args| >= 1
    ensures req.q == "" ==> Join(p.args, '/') == req.pathArgs
    ensures forall i :: 0 <= i < |p.args| ==> (if req.q != "" then ' ' else '/') !in p.args[i]
  {
    if req.q != "" then
      var tokens := Split(req.q, ' ');
      JoinSplit(req.q, ' ');
      assert tokens == [tokens[0]] + tokens[1..];
      Query(tokens[0], tokens[1..])
    else
      JoinSplit(req.pathArgs, '/');
      Query(req.pathCommand, Split(req.pathArgs, '/'))
  }

  /** The message of a failed command: its reported name and the error text. */
  function CommandErrorMessage(name: string, err: string): string
  {
    "Error processing command " + name + ": " + err
  }

  /** The message when nothing matches and there is no default URL. */
  function InvalidCommandMessage(cmd: string): string
  {
    "Invalid Command: " + cmd
  }

  /** The index handler's decision. An empty command renders the index; a
      registered command runs and its error, if any, becomes a 500; a
      bookmark runs on the arguments joined by single spaces; otherwise the
      default URL is a redirect target, with the whole of `q` put in its
      `%s` when `q` is non-empty, and without a default URL the request is a
      400. */
  function Dispatch(config: Config, commands: map<string, Command>,
                    bookmarks: map<string, string>, req: Request): (o: Outcome)
    requires SingleVerb(config.url)
    ensures o.Index? <==> Parse(req).cmd == ""
    ensures o.CommandDone? || o.CommandFailed? ==> Parse(req).cmd in commands
    ensures o.BookmarkExec? ==> o.name in bookmarks && o.name !in commands
    ensures o.Redirect? || o.BadRequest? ==>
              Parse(req).cmd !in commands && Parse(req).cmd !in bookmarks
  {
    var p := Parse(req);
    if p.cmd == "" then Index
    else if p.cmd in commands then
      var command := commands[p.cmd];
      match command.execError
      case None => CommandDone(command, p.args)
      case Some(err) => CommandFailed(CommandErrorMessage(command.name, err))
    else if p.cmd in bookmarks then
      BookmarkExec(p.cmd, bookmarks[p.cmd], Join(p.args, ' '))
    else if config.url != "" then
      Redirect(if req.q != "" then Sprintf(config.url, req.q) else config.url)
    else
      BadRequest(InvalidCommandMessage(p.cmd))
  }

  // ---------------------------------------------------------------------
  // Parsing

  /** With a non-empty `q`, the command is the text before the first space
      and the arguments are the space-separated pieces after it, in order. */
  lemma ParseQuery(req: Request)
    requires req.q != ""
    ensures var i := IndexOf(req.q, ' ');
            && Parse(req).cmd == req.q[..i]
            && (i == |req.q| ==> Parse(req).args == [])
            && (i < |req.q| ==> Parse(req).args == Split(req.q[i + 1..], ' '))
  {
    SplitFirstPiece(req.q, ' ');
  }

  /** A `q` without a space is the command alone, with no arguments. */
  lemma ParseSingleWord(req: Request)
    requires req.q != "" && ' ' !in req.q
    ensures Parse(req) == Query(req.q, [])
  {
    SplitNoSeparator(req.q, ' ');
  }

  /** Two adjacent spaces in `q` give an empty argument. */
  lemma ParseKeepsEmptyArguments(cmd: string, rest: string, pathCommand: string, pathArgs: string)
    requires ' ' !in cmd
    ensures Parse(Request(cmd + "  " + rest, pathCommand, pathArgs)).args
              == [""] + Split(rest, ' ')
  {
    assert cmd + "  " + rest == cmd + [' ', ' '] + rest;
    AdjacentSeparators(cmd, rest, ' ');
  }

  /** With an empty `q` and an empty `args` path parameter, the arguments
      are the one empty string. */
  lemma ParseEmptyPathArgs(pathCommand: string)
    ensures Parse(Request("", pathCommand, "")).args == [""]
  {
  }

  // ---------------------------------------------------------------------
  // Precedence

  /** An empty command renders the index whatever the registries and the
      configuration hold; a `q` that starts with a space has one. */
  lemma EmptyCommandIsIndex(config: Config, commands: map<string, Command>,
                            bookmarks: map<string, string>, req: Request)
    requires SingleVerb(config.url)
    requires Parse(req).cmd == "" || (req.q != "" && req.q[0] == ' ')
    ensures Dispatch(config, commands, bookmarks, req) == Index
  {
    if req.q != "" && req.q[0] == ' ' {
      ParseQuery(req);
      assert IndexOf(req.q, ' ') == 0;
    }
  }

  /** A registered command decides the outcome alone: the bookmarks and the
      default URL are not consulted, so a bookmark of the same name is
      shadowed. Success hands the arguments to the command; an error becomes
      the "Error processing command" message with the command's own name. */
  lemma CommandShadows(config: Config, config': Config, commands: map<string, Command>,
                       bookmarks: map<string, string>, bookmarks': map<string, string>,
                       req: Request)
    requires SingleVerb(config.url) && SingleVerb(config'.url)
    requires Parse(req).cmd != "" && Parse(req).cmd in commands
    ensures Dispatch(config, commands, bookmarks, req)
            == Dispatch(config', commands, bookmarks', req)
    ensures var c := commands[Parse(req).cmd];
            Dispatch(config, commands, bookmarks, req)
            == match c.execError
               case None => CommandDone(c, Parse(req).args)
               case Some(err) => CommandFailed("Error processing command " + c.name + ": " + err)
  {
  }

  /** A command and a bookmark of the same name: the command wins. */
  lemma CommandBeatsBookmark(config: Config, commands: map<string, Command>,
                             bookmarks: map<string, string>, req: Request)
    requires SingleVerb(config.url)
    requires Parse(req).cmd in commands && Parse(req).cmd in bookmarks
    ensures !Dispatch(config, commands, bookmarks, req).BookmarkExec?
  {
  }

  /** A bookmark that no command shadows runs on the arguments joined by
      single spaces, and the default URL is not consulted. */
  lemma BookmarkBeatsDefault(config: Config, config': Config, commands: map<string, Command>,
                             bookmarks: map<string, string>, req: Request)
    requires SingleVerb(config.url) && SingleVerb(config'.url)
    requires Parse(req).cmd != ""
    requires Parse(req).cmd !in commands && Parse(req).cmd in bookmarks
    ensures Dispatch(config, commands, bookmarks, req)
            == Dispatch(config', commands, bookmarks, req)
            == BookmarkExec(Parse(req).cmd, bookmarks[Parse(req).cmd], Join(Parse(req).args, ' '))
  {
  }

  /** The text a bookmark receives when the request came through `q` is `q`
      with its first token and the first space removed (empty when there is
      no space): splitting and re-joining restores it. */
  lemma BookmarkGetsRestOfQuery(config: Config, commands: map<string, Command>,
                                bookmarks: map<string, string>, req: Request)
    requires SingleVerb(config.url)
    requires req.q != "" && Parse(req).cmd != ""
    requires Parse(req).cmd !in commands && Parse(req).cmd in bookmarks
    ensures var i := IndexOf(req.q, ' ');
            Dispatch(config, commands, bookmarks, req).joined
            == if i == |req.q| then "" else req.q[i + 1..]
  {
    ParseQuery(req);
    var i := IndexOf(req.q, ' ');
    if i < |req.q| {
      JoinSplit(req.q[i + 1..], ' ');
    }
  }

  /** With an empty `q`, the text a bookmark receives is the `args` path
      parameter with each '/' turned into a space. */
  lemma BookmarkGetsPathArgs(config: Config, commands: map<string, Command>,
                             bookmarks: map<string, string>, req: Request)
    requires SingleVerb(config.url)
    requires req.q == "" && req.pathCommand != ""
    requires req.pathCommand !in commands && req.pathCommand in bookmarks
    ensures Dispatch(config, commands, bookmarks, req)
            == BookmarkExec(req.pathCommand, bookmarks[req.pathCommand],
                            Replace(req.pathArgs, '/', ' '))
  {
    JoinSplitReplace(req.pathArgs, '/', ' ');
  }

  /** A command that is neither registered nor a bookmark falls back to the
      default URL, with `%s` replaced by the whole of `q` when `q` is
      non-empty and the URL as it is otherwise; with no default URL it is a
      400 naming the command. */
  lemma UnknownCommandFallback(config: Config, commands: map<string, Command>,
                               bookmarks: map<string, string>, req: Request,
                               pre: string, post: string)
    requires '%' !in pre && '%' !in post
    requires config.url == "" || config.url == pre + "%s" + post
    requires Parse(req).cmd != ""
    requires Parse(req).cmd !in commands && Parse(req).cmd !in bookmarks
    ensures SingleVerb(config.url)
    ensures config.url == "" ==>
              Dispatch(config, commands, bookmarks, req) == BadRequest("Invalid Command: " + Parse(req).cmd)
    ensures config.url != "" && req.q != "" ==>
              Dispatch(config, commands, bookmarks, req) == Redirect(pre + req.q + post)
    ensures config.url != "" && req.q == "" ==>
              Dispatch(config, commands, bookmarks, req) == Redirect(config.url)
  {
    SprintfSubstitutes(pre, post, req.q);
  }

  /** The status code the handler sets follows the precedence: 200 for the
      index, 500 for a failing command, 302 for the default-URL redirect and
      400 when nothing matches; a succeeding command and a bookmark set their
      own. */
  lemma StatusCodes(config: Config, commands: map<string, Command>,
                    bookmarks: map<string, string>, req: Request)
    requires SingleVerb(config.url)
    ensures var o := Dispatch(config, commands, bookmarks, req);
            var cmd := Parse(req).cmd;
            && (o.Status() == Some(200) <==> cmd == "")
            && (o.Status() == Some(500) <==>
                  cmd != "" && cmd in commands && commands[cmd].execError.Some?)
            && (o.Status() == Some(302) <==>
                  cmd != "" && cmd !in commands && cmd !in bookmarks && config.url != "")
            && (o.Status() == Some(400) <==>
                  cmd != "" && cmd !in commands && cmd !in bookmarks && config.url == "")
            && (o.Status() == None <==>
                  cmd != "" && ((cmd in commands && commands[cmd].execError.None?)
                                || (cmd !in commands && cmd in bookmarks)))
  {
  }

  /** A failing command's response is a 500 whose body is its reported name
      and error text in the "Error processing command" format, then a
      newline. */
  lemma CommandErrorResponse(config: Config, commands: map<string, Command>,
                             bookmarks: map<string, string>, req: Request)
    requires SingleVerb(config.url)
    requires Parse(req).cmd != "" && Parse(req).cmd in commands
    requires commands[Parse(req).cmd].execError.Some?
    ensures var o := Dispatch(config, commands, bookmarks, req);
            var c := commands[Parse(req).cmd];
            && o.Status() == Some(500)
            && o.ErrorBody() == Some("Error processing command " + c.name + ": " + c.execError.value + "\n")
  {
  }

  /** With no match and no default URL the response is a 400 whose body is
      "Invalid Command: " and the command, then a newline. */
  lemma InvalidCommandResponse(config: Config, commands: map<string, Command>,
                               bookmarks: map<string, string>, req: Request)
    requires config.url == ""
    requires Parse(req).cmd != ""
    requires Parse(req).cmd !in commands && Parse(req).cmd !in bookmarks
    ensures SingleVerb(config.url)
    ensures var o := Dispatch(config, commands, bookmarks, req);
            o.Status() == Some(400) && o.ErrorBody() == Some("Invalid Command: " + Parse(req).cmd + "\n")
  {
  }

  /** Which branch is taken is decided by the two registries' keys and the
      emptiness of the default URL alone, and in this order. */
  lemma OutcomeKinds(config: Config, commands: map<string, Command>,
                     bookmarks: map<string, string>, req: Request)
    requires SingleVerb(config.url)
    ensures var o := Dispatch(config, commands, bookmarks, req);
            var cmd := Parse(req).cmd;
            && ((o.CommandDone? || o.CommandFailed?) <==> cmd != "" && cmd in commands)
            && (o.BookmarkExec? <==> cmd != "" && cmd !in commands && cmd in bookmarks)
            && (o.Redirect? <==> cmd != "" && cmd !in commands && cmd !in bookmarks && config.url != "")
            && (o.BadRequest? <==> cmd != "" && cmd !in commands && cmd !in bookmarks && config.url == "")
  {
  }
}
