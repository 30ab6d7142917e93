/** The resume page: the user's profile and repositories are sent to a
    language model, and its reply is kept, after a fence-only clean-up, as
    text that must parse as JSON. */
module Resume {
  import opened Wrappers
  import opened Json
  import Text
  import Cleanup
  import GitHub

  const UserNotFound := "GitHub user not found"

  const ReposFailure := "Failed to fetch repositories"

  /** How many characters a collapsed entry shows. */
  const PreviewLength := 200

  const Ellipsis := "..."

  /** A row of the resume history table. */
  datatype Saved = Saved(username: string, content: string)

  /** The reply's clean-up and parse gate: the fence markers are removed
      and the text trimmed (no quote mapping), and the text is kept only
      when `parse` (standing for `JSON.parse`) accepts it; otherwise the
      parser's message is the error. */
  function ResumeText(reply: string, parse: string -> Result<Json>): (r: Result<string>)
    ensures r.Ok? <==> parse(Cleanup.Clean(reply, false)).Ok?
    ensures r.Ok? ==> r.value == Cleanup.Clean(reply, false)
    ensures r.Err? ==> r.error == parse(Cleanup.Clean(reply, false)).error
  {
    var text := Cleanup.Clean(reply, false);
    match parse(text)
    case Ok(_) => Ok(text)
    case Err(e) => Err(e)
  }

  /** A reply without backticks is kept exactly as trimmed: in particular
      its curly quotes are not mapped to straight ones. */
  lemma ResumeKeepsQuotes(reply: string, parse: string -> Result<Json>)
    requires '`' !in reply
    requires parse(Text.Trim(reply)).Ok?
    ensures ResumeText(reply, parse) == Ok(Text.Trim(reply))
  {
    Cleanup.CleanWithoutBackticks(reply);
  }

  /** The `generateResume` pipeline as a value: the token lookup, the user
      lookup (`userFound`), the repositories request (`reposOk`), the
      model's reply (`Err` carries the message of a throw) and the parse
      gate. */
  function ResumeResult(user: Option<string>, row: Option<string>, userFound: bool, reposOk: bool,
                        reply: Result<string>, parse: string -> Result<Json>): (r: Result<string>)
    ensures GitHub.FetchToken(user, row).Err? ==> r == Err(GitHub.FetchToken(user, row).error)
    ensures GitHub.FetchToken(user, row).Ok? && !userFound ==> r == Err(UserNotFound)
    ensures GitHub.FetchToken(user, row).Ok? && userFound && !reposOk ==> r == Err(ReposFailure)
    ensures r.Ok? ==> reply.Ok? && r == ResumeText(reply.value, parse)
  {
    match GitHub.FetchToken(user, row)
    case Err(e) => Err(e)
    case Ok(_) =>
      if !userFound then Err(UserNotFound)
      else if !reposOk then Err(ReposFailure)
      else
        match reply
        case Err(e) => Err(e)
        case Ok(text) => ResumeText(text, parse)
  }

  /** A resume is produced only from a reply whose cleaned text parses, and
      it is that cleaned text. */
  lemma ResumeOnlyWhenParsed(user: Option<string>, row: Option<string>, userFound: bool, reposOk: bool,
                             reply: Result<string>, parse: string -> Result<Json>)
    ensures var r := ResumeResult(user, row, userFound, reposOk, reply, parse);
      r.Ok? ==> (user.Some? && row.Some? && userFound && reposOk && reply.Ok? &&
        r.value == Cleanup.Clean(reply.value, false) && parse(r.value).Ok?)
  {
  }

  /** The page's state; `history` holds the saved rows, newest first, as
      the page reloads them after an insert. */
  class ResumePage {
    var username: string
    var loading: bool
    var error: string
    var resume: string
    var history: seq<Saved>

    constructor ()
      ensures username == "" && !loading && error == "" && resume == "" && history == []
    {
      username := "";
      loading := false;
      error := "";
      resume := "";
      history := [];
    }

    /** `generateResume`: there is no input guard; the error and the
        previous resume are cleared, and a resume is shown and saved only
        when the whole pipeline succeeds. */
    method GenerateResume(user: Option<string>, row: Option<string>, userFound: bool, reposOk: bool,
                          reply: Result<string>, parse: string -> Result<Json>)
      modifies this
      ensures username == old(username) && !loading
      ensures match ResumeResult(user, row, userFound, reposOk, reply, parse)
        case Ok(text) => resume == text && error == "" && history == [Saved(username, text)] + old(history)
        case Err(m) => resume == "" && error == m && history == old(history)
    {
      loading := true;
      error := "";
      resume := "";
      var token := GitHub.FetchToken(user, row);
      if token.Err? {
        error := token.error;
      } else if !userFound {
        error := UserNotFound;
      } else if !reposOk {
        error := ReposFailure;
      } else if reply.Err? {
        error := reply.error;
      } else {
        var text := ResumeText(reply.value, parse);
        if text.Ok? {
          resume := text.value;
          history := [Saved(username, text.value)] + history;
        } else {
          error := text.error;
        }
      }
      loading := false;
    }
  }

  /** The `ReadMore` text: the whole text when expanded, otherwise its
      first 200 characters followed by an ellipsis, which is added even
      when nothing was cut. */
  function ReadMore(text: string, expanded: bool): (r: string)
    ensures expanded ==> r == text
    ensures !expanded ==> |r| == (if |text| < PreviewLength then |text| else PreviewLength) + |Ellipsis|
    ensures !expanded ==> Text.EndsWith(r, Ellipsis)
    ensures !expanded ==> Text.StartsWith(text, r[..|r| - |Ellipsis|])
    ensures !expanded && |text| <= PreviewLength ==> r == text + Ellipsis
  {
    if expanded then text
    else if |text| < PreviewLength then text + Ellipsis
    else text[..PreviewLength] + Ellipsis
  }
}
