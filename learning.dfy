/** The learning-path page: the user's languages and dependencies are sent
    to a language model, any JSON it returns is kept as the learning path,
    and the path can be downloaded as a Markdown document. */
module Learning {
  import opened Wrappers
  import opened Json
  import Text
  import Cleanup
  import GitHub

  const ParseFailure := "Failed to parse AI response as JSON"

  /** The reply's fence-only clean-up and parse; any value `parse`
      (standing for `JSON.parse`) produces is accepted, with no field check,
      and any parse failure is reported with one fixed message. */
  function ParsePath(reply: string, parse: string -> Result<Json>): (r: Result<Json>)
    ensures r.Ok? <==> parse(Cleanup.Clean(reply, false)).Ok?
    ensures r.Ok? ==> r.value == parse(Cleanup.Clean(reply, false)).value
    ensures r.Err? ==> r.error == ParseFailure
  {
    match parse(Cleanup.Clean(reply, false))
    case Ok(v) => Ok(v)
    case Err(_) => Err(ParseFailure)
  }

  /** The `analyzeTechnologies` pipeline as a value: the profile analysis
      (token, repositories, loop), the model's reply and the parse. */
  function PathResult(user: Option<string>, row: Option<string>, repos: Option<seq<Json>>,
                      package: Json -> Option<Json>, reply: Result<string>,
                      parse: string -> Result<Json>): Result<Json>
  {
    match GitHub.FetchToken(user, row)
    case Err(e) => Err(e)
    case Ok(_) =>
      if repos.None? then Err("Failed to fetch repositories")
      else
        match GitHub.StackOf(repos.value, package)
        case Err(e) => Err(e)
        case Ok(_) =>
          match reply
          case Err(e) => Err(e)
          case Ok(text) => ParsePath(text, parse)
  }

  /** Once the profile and the reply are in hand, the path is whatever the
      cleaned reply parses to, and a reply that does not parse leaves only
      the fixed message. */
  lemma PathResultCases(user: Option<string>, row: Option<string>, repos: Option<seq<Json>>,
                        package: Json -> Option<Json>, reply: Result<string>,
                        parse: string -> Result<Json>)
    requires GitHub.FetchToken(user, row).Ok? && repos.Some? && GitHub.StackOf(repos.value, package).Ok?
    requires reply.Ok?
    ensures PathResult(user, row, repos, package, reply, parse).Ok? <==>
      parse(Cleanup.Clean(reply.value, false)).Ok?
    ensures PathResult(user, row, repos, package, reply, parse).Ok? ==>
      PathResult(user, row, repos, package, reply, parse).value == parse(Cleanup.Clean(reply.value, false)).value
    ensures PathResult(user, row, repos, package, reply, parse).Err? ==>
      PathResult(user, row, repos, package, reply, parse).error == ParseFailure
  {
  }

  /** The languages and technologies the page collects are the distinct
      truthy `language` values and the distinct dependency names of the
      readable manifests; an unreadable manifest adds nothing. */
  lemma PathStack(repos: seq<Json>, package: Json -> Option<Json>, v: Json, name: string)
    requires GitHub.StackOf(repos, package).Ok?
    ensures v in GitHub.StackOf(repos, package).value.languages <==>
      exists i :: 0 <= i < |repos| && Get(repos[i], "language") == Ok(Defined(v)) && Truthy(Defined(v))
    ensures name in GitHub.StackOf(repos, package).value.technologies <==>
      exists i :: 0 <= i < |repos| && name in GitHub.DependenciesOf(repos[i], package)
    ensures GitHub.Distinct(GitHub.StackOf(repos, package).value.languages)
    ensures GitHub.Distinct(GitHub.StackOf(repos, package).value.technologies)
  {
    GitHub.StackLanguages(repos, package, v);
    GitHub.StackTechnologies(repos, package, name);
  }

  /** The page's state; a `Null` learning path is the page's `null`. */
  class LearningPage {
    var username: string
    var loading: bool
    var error: string
    var learningPath: Json

    constructor ()
      ensures username == "" && !loading && error == "" && learningPath == Null
    {
      username := "";
      loading := false;
      error := "";
      learningPath := Null;
    }

    /** `analyzeTechnologies`: no input guard; the error and the previous
        path are cleared, and the parsed reply is stored when every step
        succeeds. */
    method AnalyzeTechnologies(user: Option<string>, row: Option<string>, repos: Option<seq<Json>>,
                               package: Json -> Option<Json>, reply: Result<string>,
                               parse: string -> Result<Json>)
      modifies this
      ensures username == old(username) && !loading
      ensures match PathResult(user, row, repos, package, reply, parse)
        case Ok(v) => learningPath == v && error == ""
        case Err(m) => learningPath == Null && error == m
    {
      loading := true;
      error := "";
      learningPath := Null;
      var stack := GitHub.AnalyzeProfile(user, row, repos, package);
      if stack.Err? {
        error := stack.error;
      } else if reply.Err? {
        error := reply.error;
      } else {
        var path := ParsePath(reply.value, parse);
        if path.Ok? {
          learningPath := path.value;
        } else {
          error := path.error;
        }
      }
      loading := false;
    }
  }

  /** A learning resource. */
  datatype Resource = Resource(title: string, url: string, kind: string)

  /** The fields of a learning path that the download uses. */
  datatype Plan = Plan(currentLevel: string, recommendedTechnologies: seq<string>,
                       beginner: seq<string>, intermediate: seq<string>, advanced: seq<string>,
                       resources: seq<Resource>,
                       beginnerTime: string, intermediateTime: string, advancedTime: string)

  function StepLine(step: string): string {
    "- " + step
  }

  function ResourceLine(r: Resource): string {
    "- [" + r.title + "](" + r.url + ") (" + r.kind + ")"
  }

  function StepLines(steps: seq<string>): (r: seq<string>)
    ensures |r| == |steps|
    ensures forall k :: 0 <= k < |steps| ==> r[k] == StepLine(steps[k])
  {
    if steps == [] then [] else [StepLine(steps[0])] + StepLines(steps[1..])
  }

  function ResourceLines(resources: seq<Resource>): (r: seq<string>)
    ensures |r| == |resources|
    ensures forall k :: 0 <= k < |resources| ==> r[k] == ResourceLine(resources[k])
  {
    if resources == [] then [] else [ResourceLine(resources[0])] + ResourceLines(resources[1..])
  }

  /** One line of the template followed by the text after it. */
  function Line(line: string, rest: string): string {
    line + "\n" + rest
  }

  /** The document's opening, line by line: title, level, technologies and
      the learning-path heading, each followed by an empty line; `rest` is
      what the template goes on with. */
  function Head(username: string, p: Plan, rest: string): string {
    Line("# Personalized Learning Path for " + username,
    Line("",
    Line("Current Level: " + p.currentLevel,
    Line("",
    Line("## Recommended Technologies",
    Line(Text.Join(p.recommendedTechnologies, ", "),
    Line("",
    Line("## Learning Path",
    Line("", rest)))))))))
  }

  /** One level's section: its heading with the time frame, one line per
      step, and an empty line. */
  function Level(name: string, time: string, steps: seq<string>, rest: string): string {
    Line("### " + name + " Level (" + time + ")",
    Line(Text.Join(StepLines(steps), "\n"),
    Line("", rest)))
  }

  /** The closing section, one line per resource; the template ends with
      the line break after them. */
  function Resources(p: Plan): string {
    Line("## Recommended Resources",
    Line(Text.Join(ResourceLines(p.resources), "\n"), ""))
  }

  /** The Markdown document `downloadPath` saves, as its template builds it. */
  function Markdown(username: string, p: Plan): string {
    Head(username, p,
    Level("Beginner", p.beginnerTime, p.beginner,
    Level("Intermediate", p.intermediateTime, p.intermediate,
    Level("Advanced", p.advancedTime, p.advanced,
    Resources(p)))))
  }

  /** `downloadPath`: nothing when there is no path, otherwise the
      document. */
  function DownloadPath(username: string, path: Option<Plan>): (r: Option<string>)
    ensures r.None? <==> path.None?
  {
    match path
    case None => None
    case Some(p) => Some(Markdown(username, p))
  }

  /** A level's or the resources' lines as they appear in the document: an
      empty list still leaves one empty line. */
  function Block(lines: seq<string>): seq<string> {
    if lines == [] then [""] else lines
  }

  function HeadLines(username: string, p: Plan): seq<string> {
    ["# Personalized Learning Path for " + username, "", "Current Level: " + p.currentLevel, "",
     "## Recommended Technologies", Text.Join(p.recommendedTechnologies, ", "), "",
     "## Learning Path", ""]
  }

  function LevelLines(name: string, time: string, steps: seq<string>): seq<string> {
    ["### " + name + " Level (" + time + ")"] + Block(StepLines(steps)) + [""]
  }

  function ResourceSection(p: Plan): seq<string> {
    ["## Recommended Resources"] + Block(ResourceLines(p.resources)) + [""]
  }

  /** The document's lines, in order: one `- step` line per step of each
      level and one `- [title](url) (type)` line per resource. */
  function MarkdownLines(username: string, p: Plan): seq<string> {
    HeadLines(username, p) +
    (LevelLines("Beginner", p.beginnerTime, p.beginner) +
    (LevelLines("Intermediate", p.intermediateTime, p.intermediate) +
    (LevelLines("Advanced", p.advancedTime, p.advanced) +
    ResourceSection(p))))
  }

  /** No text the document interpolates holds a line break. */
  predicate SingleLine(username: string, p: Plan) {
    '\n' !in username && '\n' !in p.currentLevel &&
    '\n' !in p.beginnerTime && '\n' !in p.intermediateTime && '\n' !in p.advancedTime &&
    (forall k :: 0 <= k < |p.recommendedTechnologies| ==> '\n' !in p.recommendedTechnologies[k]) &&
    (forall k :: 0 <= k < |p.beginner| ==> '\n' !in p.beginner[k]) &&
    (forall k :: 0 <= k < |p.intermediate| ==> '\n' !in p.intermediate[k]) &&
    (forall k :: 0 <= k < |p.advanced| ==> '\n' !in p.advanced[k]) &&
    (forall k :: 0 <= k < |p.resources| ==>
      '\n' !in p.resources[k].title && '\n' !in p.resources[k].url && '\n' !in p.resources[k].kind)
  }

  /** When no interpolated text holds a line break, the downloaded
      document's lines are exactly `MarkdownLines`. */
  lemma DownloadLines(username: string, p: Plan)
    requires SingleLine(username, p)
    ensures Text.Split(DownloadPath(username, Some(p)).value, "\n") == MarkdownLines(username, p)
  {
    SplitResources(p);
    var r3 := Level("Advanced", p.advancedTime, p.advanced, Resources(p));
    SplitLevel("Advanced", p.advancedTime, p.advanced, Resources(p));
    var r2 := Level("Intermediate", p.intermediateTime, p.intermediate, r3);
    SplitLevel("Intermediate", p.intermediateTime, p.intermediate, r3);
    var r1 := Level("Beginner", p.beginnerTime, p.beginner, r2);
    SplitLevel("Beginner", p.beginnerTime, p.beginner, r2);
    SplitHead(username, p, r1);
  }

  /** A line without a line break is split off as the first piece. */
  lemma SplitLine(line: string, rest: string)
    requires '\n' !in line
    ensures Text.Split(Line(line, rest), "\n") == [line] + Text.Split(rest, "\n")
  {
    Text.SplitAfterPiece(line, '\n', rest);
  }

  /** Text that joins two pieces without a line break holds none. */
  lemma SingleLineConcat(a: string, b: string)
    requires '\n' !in a && '\n' !in b
    ensures '\n' !in a + b
  {
  }

  lemma TitleLiteral()
    ensures '\n' !in "# Personalized Learning Path for "
  {
  }

  lemma LevelLiteral()
    ensures '\n' !in "Current Level: "
  {
  }

  lemma HeadingLiterals()
    ensures '\n' !in "## Recommended Technologies" && '\n' !in "## Learning Path"
  {
  }

  lemma LevelHeadingLiterals()
    ensures '\n' !in "### " && '\n' !in " Level (" && '\n' !in ")"
  {
  }

  lemma ResourcesLiteral()
    ensures '\n' !in "## Recommended Resources"
  {
  }

  /** Nine lines without line breaks, followed by more text, split into
      those lines and the pieces of the rest. */
  lemma {:induction false} SplitNine(a: string, b: string, c: string, d: string, e: string, f: string, g: string, h: string, i: string,
                  rest: string)
    requires '\n' !in a && '\n' !in b && '\n' !in c && '\n' !in d && '\n' !in e
    requires '\n' !in f && '\n' !in g && '\n' !in h && '\n' !in i
    ensures Text.Split(Line(a, Line(b, Line(c, Line(d, Line(e, Line(f, Line(g, Line(h, Line(i, rest))))))))), "\n") ==
      [a, b, c, d, e, f, g, h, i] + Text.Split(rest, "\n")
  {
    var x := Text.Split(rest, "\n");
    SplitLine(i, rest);
    SplitLine(h, Line(i, rest));
    SplitLine(g, Line(h, Line(i, rest)));
    SplitLine(f, Line(g, Line(h, Line(i, rest))));
    SplitLine(e, Line(f, Line(g, Line(h, Line(i, rest)))));
    SplitLine(d, Line(e, Line(f, Line(g, Line(h, Line(i, rest))))));
    SplitLine(c, Line(d, Line(e, Line(f, Line(g, Line(h, Line(i, rest)))))));
    SplitLine(b, Line(c, Line(d, Line(e, Line(f, Line(g, Line(h, Line(i, rest))))))));
    SplitLine(a, Line(b, Line(c, Line(d, Line(e, Line(f, Line(g, Line(h, Line(i, rest)))))))));
    NineLines(a, b, c, d, e, f, g, h, i, x);
  }

  lemma NineLines(a: string, b: string, c: string, d: string, e: string, f: string, g: string, h: string, i: string,
                  x: seq<string>)
    ensures [a] + ([b] + ([c] + ([d] + ([e] + ([f] + ([g] + ([h] + ([i] + x)))))))) == [a, b, c, d, e, f, g, h, i] + x
  {
  }

  /** The opening splits into its nine lines. */
  lemma SplitHead(username: string, p: Plan, rest: string)
    requires '\n' !in username && '\n' !in p.currentLevel
    requires forall k :: 0 <= k < |p.recommendedTechnologies| ==> '\n' !in p.recommendedTechnologies[k]
    ensures Text.Split(Head(username, p, rest), "\n") == HeadLines(username, p) + Text.Split(rest, "\n")
  {
    TitleLiteral();
    SingleLineConcat("# Personalized Learning Path for ", username);
    LevelLiteral();
    SingleLineConcat("Current Level: ", p.currentLevel);
    HeadingLiterals();
    Text.JoinAvoids(p.recommendedTechnologies, ", ", '\n');
    SplitNine("# Personalized Learning Path for " + username, "", "Current Level: " + p.currentLevel, "",
              "## Recommended Technologies", Text.Join(p.recommendedTechnologies, ", "), "", "## Learning Path", "", rest);
  }

  /** A level's heading holds no line break when its name and time frame hold none. */
  lemma LevelHeadingSingle(name: string, time: string)
    requires '\n' !in name && '\n' !in time
    ensures '\n' !in "### " + name + " Level (" + time + ")"
  {
    LevelHeadingLiterals();
    SingleLineConcat("### ", name);
    SingleLineConcat("### " + name, " Level (");
    SingleLineConcat("### " + name + " Level (", time);
    SingleLineConcat("### " + name + " Level (" + time, ")");
  }

  /** A heading, a block of lines and an empty line, followed by more text. */
  lemma SplitSection(heading: string, lines: seq<string>, rest: string)
    requires '\n' !in heading
    requires forall k :: 0 <= k < |lines| ==> '\n' !in lines[k]
    ensures Text.Split(Line(heading, Line(Text.Join(lines, "\n"), Line("", rest))), "\n") ==
      [heading] + Block(lines) + [""] + Text.Split(rest, "\n")
  {
    var t3 := Line("", rest);
    var t2 := Line(Text.Join(lines, "\n"), t3);
    SplitLine("", rest);
    BlockThen(lines, t3);
    SplitLine(heading, t2);
    ThreePieces([heading], Block(lines), [""], Text.Split(rest, "\n"));
  }

  lemma ThreePieces(a: seq<string>, b: seq<string>, c: seq<string>, x: seq<string>)
    ensures a + (b + (c + x)) == a + b + c + x
  {
  }

  lemma SplitLevel(name: string, time: string, steps: seq<string>, rest: string)
    requires '\n' !in name && '\n' !in time
    requires forall k :: 0 <= k < |steps| ==> '\n' !in steps[k]
    ensures Text.Split(Level(name, time, steps, rest), "\n") == LevelLines(name, time, steps) + Text.Split(rest, "\n")
  {
    LevelHeadingSingle(name, time);
    StepLinesSingle(steps);
    SplitSection("### " + name + " Level (" + time + ")", StepLines(steps), rest);
  }

  lemma SplitResources(p: Plan)
    requires forall k :: 0 <= k < |p.resources| ==>
      '\n' !in p.resources[k].title && '\n' !in p.resources[k].url && '\n' !in p.resources[k].kind
    ensures Text.Split(Resources(p), "\n") == ResourceSection(p)
  {
    ResourceLinesSingle(p.resources);
    ResourcesLiteral();
    assert Text.Split("", "\n") == [""];
    SplitLine("## Recommended Resources", Line(Text.Join(ResourceLines(p.resources), "\n"), ""));
    BlockThen(ResourceLines(p.resources), "");
    assert ["## Recommended Resources"] + (Block(ResourceLines(p.resources)) + [""]) ==
      ["## Recommended Resources"] + Block(ResourceLines(p.resources)) + [""];
  }

  /** The lines of a block followed by a line break and more text. */
  lemma BlockThen(lines: seq<string>, rest: string)
    requires forall k :: 0 <= k < |lines| ==> '\n' !in lines[k]
    ensures Text.Split(Line(Text.Join(lines, "\n"), rest), "\n") == Block(lines) + Text.Split(rest, "\n")
  {
    if lines == [] {
      Text.SplitAfterPiece("", '\n', rest);
    } else {
      Text.SplitJoinThen(lines, '\n', rest);
    }
  }

  lemma StepLinesSingle(steps: seq<string>)
    requires forall k :: 0 <= k < |steps| ==> '\n' !in steps[k]
    ensures forall k :: 0 <= k < |StepLines(steps)| ==> '\n' !in StepLines(steps)[k]
  {
    forall k | 0 <= k < |steps| ensures '\n' !in StepLine(steps[k]) {
      assert StepLine(steps[k]) == "- " + steps[k];
    }
  }

  lemma ResourceLinesSingle(resources: seq<Resource>)
    requires forall k :: 0 <= k < |resources| ==>
      '\n' !in resources[k].title && '\n' !in resources[k].url && '\n' !in resources[k].kind
    ensures forall k :: 0 <= k < |ResourceLines(resources)| ==> '\n' !in ResourceLines(resources)[k]
  {
  }
}
