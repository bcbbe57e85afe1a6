# golinks dispatch core in Dafny

A model of the request dispatcher of golinks, a personal "go-links"
redirector: `Server.IndexHandler` turns the free-text query `q` (or, when it
is empty, the `command` and `args` path parameters) into a command token and
an argument list, then resolves the token in a fixed order and produces one
outcome:

1. an empty command renders the index page;
2. a registered command runs, and an error from its `Exec` becomes a 500
   with the message `Error processing command <Name()>: <err>`;
3. a stored bookmark runs on the arguments joined by single spaces;
4. a non-empty default URL is a 302 redirect, with the whole of `q` put in
   its `%s` when `q` is non-empty and the URL as it is otherwise;
5. otherwise the request is a 400 with the message `Invalid Command: <cmd>`.

Files:

- `strings.dfy` — module `Strings`: Go's `strings.Split` and `strings.Join`
  on a one-character separator, with the split/join round trips.
- `format.dfy` — module `Format`: `fmt.Sprintf(template, arg)` for a
  template with at most one verb, `%s`.
- `dispatcher.dfy` — module `Dispatcher`: the data model (`Config`,
  `Command`, `Request`, `Query`, `Outcome`), `Parse`, `Dispatch` and the
  precedence lemmas.
- `scenarios.dfy` — module `Scenarios`: the handler cases of
  `server_test.go`, each stated for all registries in which the names
  involved are registered as the test's setup makes them.

The command registry is a `map<string, Command>` from the lookup key to
the command as one request sees it: the name its `Name()` reports and the
error its `Exec` returns, if any. The bookmark store is a
`map<string, string>` from name to stored pattern. Both are parameters of
`Dispatch`, as are the configuration and the request; `q` arrives already
decoded.

Three behaviours of the code that are easy to misread:

- The default-URL fallback calls `fmt.Sprintf(url, q)` whenever `q` is
  non-empty. For a URL with no `%s`, Go then appends
  `%!(EXTRA string=<q>)` to the URL rather than using it verbatim;
  `Format.Sprintf` models that suffix.
- A `q` that begins with a space has an empty first token, so it renders
  the index like an empty request (`Dispatcher.EmptyCommandIsIndex`).
- The 500 message uses the command's own `Name()`, which need not be the
  key it was registered under.

## Model

| member | source | states |
|---|---|---|
| Strings.Split | server.go:101-103 | `strings.Split` never yields an empty list: there is one more piece than there are separators, so `len(tokens) > 0` always holds. No piece contains the separator. |
| Strings.SplitFirstPiece | server.go:101-103 | The first piece is the text before the first separator. The remaining pieces are the split of the text after that separator, or nothing when there is no separator. |
| Strings.AdjacentSeparators | server.go:101 | Two adjacent separators leave an empty piece between them; nothing is collapsed. |
| Strings.Join | server.go:126 | The joined string is empty for no pieces. Otherwise its length is the total length of the pieces plus one separator between each pair of neighbours, and it starts with the first piece. |
| Strings.JoinEndsWithLast | server.go:126 | The joined string ends with the last piece. |
| Strings.JoinAppend | server.go:126 | Joining two non-empty lists of pieces gives the join of the first, one separator, then the join of the second. |
| Strings.SplitAppend | server.go:101-107 | A separator anywhere in the text cuts the split in two: the pieces before it, then the pieces after it. So two adjacent separators leave an empty piece wherever they occur. |
| Strings.JoinSplit | server.go:101-126 | Joining the pieces of a split with the same separator restores the original string. |
| Strings.SplitJoin | server.go:101-126 | Splitting a join of separator-free pieces gives back the same pieces. |
| Strings.JoinSplitReplace | server.go:107-126 | Splitting on '/' and joining on ' ' is the same as replacing every '/' by a space. |
| Format.Sprintf | server.go:132 | Formatting keeps the text before the verb. When there is a `%s`, the argument appears at its place verbatim, and the length grows by the argument's length minus two. |
| Format.SprintfSubstitutes | server.go:132 | A template `pre + "%s" + post` formats to `pre + arg + post`. |
| Format.SprintfWithoutVerb | server.go:132 | A template without '%' formats to the template followed by Go's `%!(EXTRA string=arg)` note. |
| Dispatcher.Parse | server.go:100-108 | With a non-empty `q`, the command and every arg are free of spaces, and command plus args re-join on spaces to exactly `q`. With an empty `q`, the command is the `command` path parameter, and the args are never empty, are free of '/', and re-join on '/' to the `args` path parameter. With `Strings.SplitJoin` this pins the args down as the split of `q` on ' ' or of `args` on '/'. |
| Dispatcher.ParseSingleWord | server.go:100-104 | A non-empty `q` without a space is the command alone, with no args. |
| Dispatcher.ParseQuery | server.go:100-104 | With a non-empty `q`, the command is `q` up to its first space. The args are the split of the text after that space, or empty when `q` has no space. |
| Dispatcher.ParseKeepsEmptyArguments | server.go:101-103 | Two spaces after the command, whether or not the command is empty, give an empty first argument. |
| Dispatcher.ParseEmptyPathArgs | server.go:105-108 | An empty `q` with an empty `args` path parameter gives the one-element argument list `[""]`. |
| Dispatcher.Dispatch | server.go:110-143 | The outcome is Index exactly when the command is empty. A command outcome needs a registered command. A bookmark outcome needs a bookmark that no command shadows. The redirect and 400 outcomes occur only when neither registry holds the command. |
| Dispatcher.EmptyCommandIsIndex | server.go:110-111 | An empty command, including one from a `q` that starts with a space, renders the index whatever the registries and the configuration hold. |
| Dispatcher.CommandShadows | server.go:113-124 | For a registered command, the outcome does not depend on the bookmarks or the default URL. Success hands it the parsed args. An error gives the message `"Error processing command " + Name() + ": " + err`. |
| Dispatcher.CommandBeatsBookmark | server.go:113-127 | When a command and a bookmark share a name, the bookmark is never executed. |
| Dispatcher.BookmarkBeatsDefault | server.go:125-128 | An unshadowed bookmark runs with its stored pattern on the args joined by single spaces. The default URL does not affect that outcome. |
| Dispatcher.BookmarkGetsRestOfQuery | server.go:100-127 | When the request came through `q`, the bookmark receives `q` minus its first token and first space, unencoded, or "" when `q` has no space. |
| Dispatcher.BookmarkGetsPathArgs | server.go:105-127 | With an empty `q`, the bookmark receives the `args` path parameter with every '/' turned into a space. |
| Dispatcher.UnknownCommandFallback | server.go:128-141 | When neither registry holds the command, the rules below apply for a template `pre + "%s" + post`. A non-empty `q` gives a redirect to `pre + q + post`, with the whole of `q`. An empty `q` gives a redirect to the URL unchanged. An empty URL gives `BadRequest("Invalid Command: " + cmd)`. |
| Dispatcher.StatusCodes | server.go:110-141 | The handler sets 200 exactly for an empty command. It sets 500 exactly for a registered command whose `Exec` fails, 302 exactly for the default-URL fallback, and 400 exactly when nothing matches and there is no default URL. It sets no status exactly for a succeeding command or a bookmark. |
| Dispatcher.CommandErrorResponse | server.go:114-123 | A failing command gives status 500 and the `http.Error` body `"Error processing command " + Name() + ": " + err + "\n"`. |
| Dispatcher.InvalidCommandResponse | server.go:135-140 | With no match and no default URL, the status is 400 and the `http.Error` body is `"Invalid Command: " + cmd + "\n"`. |
| Dispatcher.OutcomeKinds | server.go:110-143 | Each outcome kind occurs exactly when its precedence condition holds, in both directions: a registered command, else a bookmark, else a non-empty default URL, else a 400. |
| Scenarios.IndexScenario | server_test.go:57-68 | An empty request renders the index with status 200. |
| Scenarios.InvalidCommandScenario | server_test.go:104-120 | `q=asdf` with no default URL gives status 400 and body "Invalid Command: asdf\n". |
| Scenarios.DefaultURLScenario | server_test.go:122-143 | `q=asdf` with the search template as the default URL is a 302 to `https://www.google.com/search?q=asdf&btnK`. |
| Scenarios.CommandErrorScenario | server_test.go:145-163 | `q=explode` with the always-failing command gives status 500 and body "Error processing command explode: kaboom\n". |
| Scenarios.CommandScenario | server_test.go:83-102 | `q=ping` with a succeeding `ping` command hands it an empty argument list and leaves the response to it. |
| Scenarios.BookmarkScenario | server_test.go:165-189 | `q=g foo bar` with an unshadowed `g` bookmark runs it on "foo bar", with the space kept. |
| Scenarios.BookmarkPathScenario | server.go:105-127 | With an empty `q`, the path parameters `command` = "g" and `args` = "foo/bar" give the `g` bookmark the same text "foo bar". |

## Left out

- The bodies of `LookupCommand`, `RegisterCommand`, `LookupBookmark`, `EnsureDefaultBookmarks` and `Bookmark.Exec` are not part of this model. The registries are plain maps. Running a bookmark is the abstract outcome `BookmarkExec(name, pattern, joined)`, so the redirect a bookmark issues, and its status, are not modelled.
- What a successful command writes (for `ping`, "pong" and a timestamp) is left to the command: the outcome `CommandDone` records only the command and its args. The clock is not modelled.
- A command's `Exec` result is fixed per request (`Command.execError`). Any dependence on the args or the HTTP request is not modelled.
- Rendering the index (`render`, templates.go) is not modelled. `Index` stands for a successful render with status 200; a template failure (500) is left out.
- The body `http.Redirect` writes and the partial response a failing command may already have written are HTTP plumbing and are not modelled.
- No route in server.go:200-208 supplies the `command` and `args` path parameters. `IndexHandler` is mounted only on "/", so in the program as shown the empty-`q` branch always sees empty parameters and renders the index. The model keeps that branch as the handler codes it, with the parameters as inputs. A catch-all route would also hand over `args` with a leading '/', which the model does not add.
- `Redirect(url)` is the target passed to `http.Redirect`. That function escapes non-ASCII bytes and turns a target without a scheme into a cleaned absolute path, so the `Location` header can differ from `url`; that step is not modelled.
- Decoding `q` from the query string or the form is not modelled: `q` is an already-decoded input.
- Format.Sprintf: covers only templates with at most one '%', and that one '%' must begin `%s`. Other verbs, `%%` and a trailing '%' are outside the model, so `Dispatch` requires its default URL to be such a template.
- Counters, logging, stats, `StatsHandler` (the live request statistics as JSON, or a 500 when marshalling fails), gzip, routing and `ListenAndServe` are metrics and server plumbing. `HelpHandler` and `OpenSearchHandler` only render or print fixed content. main.go (flags, opening the store) and version.go are not part of this model.
- The default URL constant `DefaultURL` is not part of this model. The scenarios use `https://www.google.com/search?q=%s&btnK`, the template that matches the redirect targets the tests expect.
- Strings are sequences of characters, while Go splits UTF-8 bytes. The separators (' ' and '/') are ASCII, so the two agree.
