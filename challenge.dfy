/** The coding-challenge page: a profile summary of the user's
    repositories is sent to a language model, whose reply is cleaned,
    parsed and checked for the eight fields a challenge needs. */
module Challenge {
  import opened Wrappers
  import opened Json
  import Text
  import Cleanup
  import Validation
  import GitHub

  const ChallengeFields: seq<string> :=
    ["title", "difficulty", "description", "requirements", "startingCode", "hints", "testCases", "timeLimit"]

  const ParseFailure := "Failed to parse challenge data. Please try again."

  const BlankUsername := "Please enter a GitHub username"

  /** The reply's clean-up (with the smart-quote mapping), parse and
      required-field check; `parse` stands for `JSON.parse`. */
  function ParseChallenge(reply: string, parse: string -> Result<Json>): (r: Validation.Outcome)
    ensures r.Rejected? ==> r.message == ParseFailure
    ensures r.Accepted? ==> parse(Cleanup.Clean(reply, true)) == Ok(r.value)
  {
    Validation.Validate(parse(Cleanup.Clean(reply, true)), ChallengeFields, ParseFailure)
  }

  /** A reply is accepted exactly when its cleaned text parses to a value
      in which each of the eight fields is truthy; whatever fails, only the
      one fixed message is reported. */
  lemma ChallengeAccepted(reply: string, parse: string -> Result<Json>)
    ensures ParseChallenge(reply, parse).Accepted? <==>
      var parsed := parse(Cleanup.Clean(reply, true));
      parsed.Ok? && !parsed.value.Null? &&
      forall f :: f in ChallengeFields ==> Truthy(Get(parsed.value, f).value)
    ensures ParseChallenge(reply, parse).Rejected? ==> ParseChallenge(reply, parse).message == ParseFailure
  {
    Validation.ValidateAccepts(parse(Cleanup.Clean(reply, true)), ChallengeFields, ParseFailure);
  }

  /** When the cleaned reply parses, the fields reported missing are the
      falsy ones among the eight, in their declared order. */
  lemma ChallengeMissingFields(data: Json, f: string)
    requires !data.Null?
    ensures Validation.MissingFields(data, ChallengeFields).Ok?
    ensures Validation.Subsequence(Validation.MissingFields(data, ChallengeFields).value, ChallengeFields)
    ensures f in Validation.MissingFields(data, ChallengeFields).value <==>
      f in ChallengeFields && !Truthy(Get(data, f).value)
  {
  }

  /** The whole `generateChallenge` pipeline after the guard, as a value:
      the token lookup, the repositories request (`repos` is `None` when it
      is refused), the profile analysis, the model's reply (`Err` carries
      the message of a throw) and the parse-and-check. */
  function ChallengeResult(user: Option<string>, row: Option<string>, repos: Option<seq<Json>>,
                           package: Json -> Option<Json>, reply: Result<string>,
                           parse: string -> Result<Json>): Result<Json>
  {
    match GitHub.FetchToken(user, row)
    case Err(e) => Err(e)
    case Ok(_) =>
      if repos.None? then Err("Failed to fetch repositories")
      else
        match GitHub.StackOf(repos.value, package)
        case Err(e) => Err(e)
        case Ok(_) =>
          match reply
          case Err(e) => Err(e)
          case Ok(text) =>
            match ParseChallenge(text, parse)
            case Accepted(v) => Ok(v)
            case Rejected(m) => Err(m)
  }

  /** A challenge is produced only from a reply that parsed and passed the
      check; every earlier failure is reported with its own message, in
      the order the steps run. */
  lemma ChallengeResultCases(user: Option<string>, row: Option<string>, repos: Option<seq<Json>>,
                             package: Json -> Option<Json>, reply: Result<string>,
                             parse: string -> Result<Json>)
    ensures var r := ChallengeResult(user, row, repos, package, reply, parse);
      (user.None? ==> r == Err("Not authenticated")) &&
      (user.Some? && row.None? ==> r == Err("GitHub token not found")) &&
      (user.Some? && row.Some? && repos.None? ==> r == Err("Failed to fetch repositories")) &&
      (user.Some? && row.Some? && repos.Some? && GitHub.StackOf(repos.value, package).Err? ==>
       r == Err(GitHub.StackOf(repos.value, package).error)) &&
      (user.Some? && row.Some? && repos.Some? && GitHub.StackOf(repos.value, package).Ok? && reply.Err? ==>
       r == Err(reply.error)) &&
      (r.Ok? ==> reply.Ok? && ParseChallenge(reply.value, parse) == Validation.Accepted(r.value)) &&
      (user.Some? && row.Some? && repos.Some? && GitHub.StackOf(repos.value, package).Ok? &&
       reply.Ok? && ParseChallenge(reply.value, parse).Rejected?
       ==> r == Err(ParseFailure))
  {
  }

  /** The steps of `generateChallenge` after the guard, one after the
      other, each stopping at its first failure. */
  method RunChallenge(user: Option<string>, row: Option<string>, repos: Option<seq<Json>>,
                      package: Json -> Option<Json>, reply: Result<string>,
                      parse: string -> Result<Json>) returns (r: Result<Json>)
    ensures r == ChallengeResult(user, row, repos, package, reply, parse)
  {
    var outcome := GitHub.AnalyzeProfile(user, row, repos, package);
    if outcome.Err? {
      return Err(outcome.error);
    }
    if reply.Err? {
      return Err(reply.error);
    }
    var checked := ParseChallenge(reply.value, parse);
    if checked.Accepted? {
      r := Ok(checked.value);
    } else {
      r := Err(checked.message);
    }
  }

  /** The page's state. */
  class ChallengePage {
    var username: string
    var loading: bool
    var error: string
    var challenge: Option<Json>
    var showSolution: bool
    var solution: string

    constructor ()
      ensures username == "" && !loading && error == "" && challenge == None && !showSolution && solution == ""
    {
      username := "";
      loading := false;
      error := "";
      challenge := None;
      showSolution := false;
      solution := "";
    }

    /** The state the page is left in once the pipeline has finished: the
        challenge or the error, with the solution hidden and cleared. */
    method Show(outcome: Result<Json>)
      modifies this
      ensures username == old(username)
      ensures !showSolution && solution == "" && !loading
      ensures outcome.Ok? ==> challenge == Some(outcome.value) && error == ""
      ensures outcome.Err? ==> challenge == None && error == outcome.error
    {
      error := if outcome.Err? then outcome.error else "";
      challenge := if outcome.Ok? then Some(outcome.value) else None;
      showSolution := false;
      solution := "";
      loading := false;
    }

    /** `generateChallenge`. A blank username only sets an error and makes
        no request (`requested` is false); otherwise the previous challenge
        and solution are cleared and the pipeline's outcome is stored. */
    method GenerateChallenge(user: Option<string>, row: Option<string>, repos: Option<seq<Json>>,
                             package: Json -> Option<Json>, reply: Result<string>,
                             parse: string -> Result<Json>) returns (requested: bool)
      modifies this
      ensures requested <==> Text.Trim(old(username)) != ""
      ensures username == old(username)
      ensures !requested ==> (error == BlankUsername && challenge == old(challenge) &&
        showSolution == old(showSolution) && solution == old(solution) && loading == old(loading))
      ensures requested ==> !showSolution && solution == "" && !loading
      ensures requested ==>
        match ChallengeResult(user, row, repos, package, reply, parse)
        case Ok(c) => challenge == Some(c) && error == ""
        case Err(m) => challenge == None && error == m
    {
      if Text.Trim(username) == "" {
        error := BlankUsername;
        return false;
      }
      requested := true;
      var outcome := RunChallenge(user, row, repos, package, reply, parse);
      Show(outcome);
    }
  }
}
