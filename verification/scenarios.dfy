/**
 The handler test cases of server_test.go, each stated for every pair of
 registries in which the names involved are (or are not) registered as the
 test's setup makes them.
 */
module Scenarios {
  import opened Strings
  import opened Format
  import opened Dispatcher

  /** The default search template; the tests' expected redirect targets are
      this template with the query in place of `%s`. */
  const GoogleSearch := SearchPrefix + "%s" + SearchSuffix
  const SearchPrefix := "https://www.google.com/search?q="
  const SearchSuffix := "&btnK"

  /** The `explode` command of the tests: its `Exec` always fails with "kaboom". */
  const Explode := Command("explode", Some("kaboom"))

  function QueryRequest(q: string): Request
  {
    Request(q, "", "")
  }

  /** An empty request renders the index with status 200. */
  lemma IndexScenario(config: Config, commands: map<string, Command>,
                      bookmarks: map<string, string>)
    requires SingleVerb(config.url)
    ensures var o := Dispatch(config, commands, bookmarks, Request("", "", ""));
            o == Index && o.Status() == Some(200)
  {
  }

  /** `q=asdf` with no default URL is a 400 whose body is "Invalid Command: asdf\n". */
  lemma InvalidCommandScenario(commands: map<string, Command>, bookmarks: map<string, string>)
    requires "asdf" !in commands && "asdf" !in bookmarks
    ensures var o := Dispatch(Config("", "", ""), commands, bookmarks, QueryRequest("asdf"));
            o.Status() == Some(400) && o.ErrorBody() == Some("Invalid Command: asdf\n")
  {
    var req := QueryRequest("asdf");
    ParseSingleWord(req);
    InvalidCommandResponse(Config("", "", ""), commands, bookmarks, req);
    InvalidAsdfBody();
  }

  /** The 400 body for "asdf". Kept apart from the scenario so that the
      literal is not unfolded together with `Dispatch`. */
  lemma InvalidAsdfBody()
    ensures "Invalid Command: " + "asdf" + "\n" == "Invalid Command: asdf\n"
  {
  }

  /** `q=asdf` with the default search URL is a 302 to the location the
      test expects. */
  lemma DefaultURLScenario(config: Config, commands: map<string, Command>,
                           bookmarks: map<string, string>, req: Request)
    requires config.url == GoogleSearch
    requires req == QueryRequest("asdf")
    requires "asdf" !in commands && "asdf" !in bookmarks
    ensures SingleVerb(config.url)
    ensures var o := Dispatch(config, commands, bookmarks, req);
            o.Status() == Some(302) && o == Redirect("https://www.google.com/search?q=asdf&btnK")
  {
    ParseSingleWord(req);
    SearchTemplateShape();
    UnknownCommandFallback(config, commands, bookmarks, req, SearchPrefix, SearchSuffix);
    SearchLocation();
  }

  /** The search template has exactly one '%', the one of its `%s`. */
  lemma SearchTemplateShape()
    ensures '%' !in SearchPrefix && '%' !in SearchSuffix
  {
  }

  /** The expected location is the search template with "asdf" in place of
      `%s`. */
  lemma SearchLocation()
    ensures SearchPrefix + "asdf" + SearchSuffix == "https://www.google.com/search?q=asdf&btnK"
  {
  }

  /** `q=explode` with the failing command registered is a 500 whose body
      names the command and its error. */
  lemma CommandErrorScenario(config: Config, commands: map<string, Command>,
                             bookmarks: map<string, string>)
    requires SingleVerb(config.url)
    requires "explode" in commands && commands["explode"] == Explode
    ensures var o := Dispatch(config, commands, bookmarks, QueryRequest("explode"));
            o.Status() == Some(500) && o.ErrorBody() == Some("Error processing command explode: kaboom\n")
  {
    var req := QueryRequest("explode");
    ParseSingleWord(req);
    CommandErrorResponse(config, commands, bookmarks, req);
    ExplodeBody();
  }

  /** The 500 body for `explode`. Kept apart from the scenario so that the
      literal is not unfolded together with `Dispatch`. */
  lemma ExplodeBody()
    ensures "Error processing command " + "explode" + ": " + "kaboom" + "\n"
            == "Error processing command explode: kaboom\n"
  {
  }

  /** `q=ping` with a succeeding `ping` command hands the command an empty
      argument list and leaves the response to it. */
  lemma CommandScenario(config: Config, commands: map<string, Command>,
                        bookmarks: map<string, string>)
    requires SingleVerb(config.url)
    requires "ping" in commands && commands["ping"].execError == None
    ensures Dispatch(config, commands, bookmarks, QueryRequest("ping"))
            == CommandDone(commands["ping"], [])
  {
    ParseSingleWord(QueryRequest("ping"));
  }

  /** `q=g foo bar` with the `g` bookmark runs it on "foo bar", spaces kept. */
  lemma BookmarkScenario(config: Config, commands: map<string, Command>,
                         bookmarks: map<string, string>)
    requires SingleVerb(config.url)
    requires "g" !in commands && "g" in bookmarks
    ensures Dispatch(config, commands, bookmarks, QueryRequest("g foo bar"))
            == BookmarkExec("g", bookmarks["g"], "foo bar")
  {
    var req := QueryRequest("g foo bar");
    assert IndexOf(req.q, ' ') == 1;
    ParseQuery(req);
    assert Parse(req).cmd == "g";
    BookmarkGetsRestOfQuery(config, commands, bookmarks, req);
    BookmarkBeatsDefault(config, config, commands, bookmarks, req);
  }

  /** With an empty `q`, path parameters `command` = "g" and `args` =
      "foo/bar" hand the `g` bookmark the same text. */
  lemma BookmarkPathScenario(config: Config, commands: map<string, Command>,
                             bookmarks: map<string, string>, req: Request)
    requires SingleVerb(config.url)
    requires req == Request("", "g", "foo/bar")
    requires "g" !in commands && "g" in bookmarks
    ensures Dispatch(config, commands, bookmarks, req) == BookmarkExec("g", bookmarks["g"], "foo bar")
  {
    BookmarkGetsPathArgs(config, commands, bookmarks, req);
    SlashesBecomeSpaces();
  }

  /** The '/' of "foo/bar" becomes a space. Kept apart from the scenario so
      that the literal is not unfolded together with `Dispatch`. */
  lemma SlashesBecomeSpaces()
    ensures Replace("foo/bar", '/', ' ') == "foo bar"
  {
    assert "foo/bar" == "foo" + "/" + "bar";
    ReplaceAppend("foo" + "/", "bar", '/', ' ');
    ReplaceAppend("foo", "/", '/', ' ');
    ReplaceAbsent("foo", '/', ' ');
    ReplaceAbsent("bar", '/', ' ');
    assert Replace("/", '/', ' ') == " ";
    assert "foo" + " " + "bar" == "foo bar";
  }
}
