/** The portfolio builder: it reads a GitHub user's profile and
    repositories, keeps the first six repositories, lists the distinct
    repository languages and sums the stars, and writes a static site of
    four files whose `index.html` is also the preview. */
module Portfolio {
  import opened Wrappers
  import Text
  import Template
  import GitHub

  const UserNotFound := "GitHub user not found"
  const ReposFailure := "Failed to fetch repositories"

  /** How many repositories the portfolio features. */
  const FeaturedCount := 6

  const NoDescription := "No description available"

  /** The fields read from the GitHub user record; `name` and `bio` may be
      `null`. */
  datatype Profile = Profile(name: Option<string>, bio: Option<string>, avatarUrl: string)

  /** The fields read from a GitHub repository record; `description` and
      `language` may be `null`. */
  datatype Repo = Repo(name: string, description: Option<string>, language: Option<string>, stars: nat, htmlUrl: string)

  /** What `getUserData` returns. */
  datatype UserData = UserData(
    name: Option<string>,
    bio: Option<string>,
    avatarUrl: string,
    repositories: seq<Repo>,
    languages: seq<string>,
    contributions: nat)

  /** The data the site is written from (`portfolioData`). */
  datatype Data = Data(
    name: Option<string>,
    bio: Option<string>,
    avatar: string,
    repos: seq<Repo>,
    languages: seq<string>,
    contributions: nat)

  /** What `generatePortfolioContent` returns. */
  datatype Generated = Generated(files: map<string, string>, previewHtml: string)

  /** What one repository adds to the language list: its language when that
      is a non-empty string. */
  function RepoLanguage(repo: Repo): (r: seq<string>)
    ensures r == [] <==> repo.language.None? || repo.language.value == ""
    ensures r != [] ==> r == [repo.language.value]
  {
    match repo.language
    case None => []
    case Some(l) => if l == "" then [] else [l]
  }

  /** The truthy languages of the repositories, in order, with repetitions. */
  function TruthyLanguages(repos: seq<Repo>): seq<string>
  {
    GitHub.Gather(repos, RepoLanguage)
  }

  /** The languages `getUserData` reports. */
  function Languages(repos: seq<Repo>): seq<string>
  {
    GitHub.Dedup(TruthyLanguages(repos))
  }

  /** `repos.reduce((acc, repo) => acc + repo.stargazers_count, 0)`. */
  function Stars(repos: seq<Repo>): nat
  {
    if |repos| == 0 then 0 else Stars(repos[..|repos| - 1]) + repos[|repos| - 1].stars
  }

  /** The star total of consecutive lists of repositories adds up. */
  lemma {:induction false} StarsAppend(a: seq<Repo>, b: seq<Repo>)
    ensures Stars(a + b) == Stars(a) + Stars(b)
    decreases |b|
  {
    if |b| > 0 {
      var b' := b[..|b| - 1];
      assert (a + b)[..|a + b| - 1] == a + b';
      StarsAppend(a, b');
    } else {
      assert a + b == a;
    }
  }

  /** Every repository's stars are counted in the total. */
  lemma StarsCountEach(repos: seq<Repo>, i: nat)
    requires i < |repos|
    ensures repos[i].stars <= Stars(repos)
  {
    StarsAppend(repos[..i], repos[i..]);
    assert repos == repos[..i] + repos[i..];
    StarsAppend([repos[i]], repos[i + 1..]);
    assert repos[i..] == [repos[i]] + repos[i + 1..];
    assert [repos[i]][..0] == [];
  }

  /** `getUserData`: `user` is the signed-in user's id, `row` the stored
      token, `profile` the user record when its request succeeds, and
      `repos` the repository list when its request succeeds. */
  function UserDataOf(user: Option<string>, row: Option<string>, profile: Option<Profile>, repos: Option<seq<Repo>>): (r: Result<UserData>)
    ensures r.Ok? <==> user.Some? && row.Some? && profile.Some? && repos.Some?
    ensures user.None? ==> r == Err("Not authenticated")
    ensures user.Some? && row.None? ==> r == Err("GitHub token not found")
    ensures user.Some? && row.Some? && profile.None? ==> r == Err(UserNotFound)
    ensures user.Some? && row.Some? && profile.Some? && repos.None? ==> r == Err(ReposFailure)
    ensures r.Ok? ==>
      r.value.name == profile.value.name && r.value.bio == profile.value.bio &&
      r.value.avatarUrl == profile.value.avatarUrl && r.value.repositories == repos.value
  {
    match GitHub.FetchToken(user, row)
    case Err(e) => Err(e)
    case Ok(_) =>
      if profile.None? then Err(UserNotFound)
      else if repos.None? then Err(ReposFailure)
      else
        var p := profile.value;
        var rs := repos.value;
        Ok(UserData(p.name, p.bio, p.avatarUrl, rs, Languages(rs), Stars(rs)))
  }

  /** The reported languages are exactly the truthy repository languages,
      each once, in the order they first occur. */
  lemma UserLanguages(user: Option<string>, row: Option<string>, profile: Option<Profile>, repos: Option<seq<Repo>>, x: string)
    requires UserDataOf(user, row, profile, repos).Ok?
    ensures x in UserDataOf(user, row, profile, repos).value.languages <==>
      exists i :: 0 <= i < |repos.value| && repos.value[i].language == Some(x) && x != ""
    ensures GitHub.Distinct(UserDataOf(user, row, profile, repos).value.languages)
  {
    var rs := repos.value;
    GitHub.DedupMembers(TruthyLanguages(rs), x);
    GitHub.DedupDistinct(TruthyLanguages(rs));
    GitHub.GatherMembers(rs, RepoLanguage, x);
  }

  /** First-seen order of the reported languages. */
  lemma UserLanguagesOrder(user: Option<string>, row: Option<string>, profile: Option<Profile>, repos: Option<seq<Repo>>, i: nat, j: nat)
    requires UserDataOf(user, row, profile, repos).Ok?
    requires i < j < |UserDataOf(user, row, profile, repos).value.languages|
    ensures var ls := UserDataOf(user, row, profile, repos).value.languages;
      var all := TruthyLanguages(repos.value);
      ls[i] in all && ls[j] in all && GitHub.FirstIndex(all, ls[i]) < GitHub.FirstIndex(all, ls[j])
  {
    GitHub.DedupFirstSeen(TruthyLanguages(repos.value), i, j);
  }

  /** Contributions count every repository, featured or not. */
  lemma UserContributions(user: Option<string>, row: Option<string>, profile: Option<Profile>, repos: Option<seq<Repo>>, i: nat)
    requires UserDataOf(user, row, profile, repos).Ok?
    requires i < |repos.value|
    ensures repos.value[i].stars <= UserDataOf(user, row, profile, repos).value.contributions
    ensures Stars(Featured(repos.value)) <= UserDataOf(user, row, profile, repos).value.contributions
  {
    var rs := repos.value;
    StarsCountEach(rs, i);
    var f := Featured(rs);
    assert rs == f + rs[|f|..];
    StarsAppend(f, rs[|f|..]);
  }

  /** The `reduce` that pushes each new truthy language onto its
      accumulator. */
  method CollectLanguages(repos: seq<Repo>) returns (acc: seq<string>)
    ensures acc == Languages(repos)
  {
    acc := [];
    for i := 0 to |repos|
      invariant acc == GitHub.Dedup(TruthyLanguages(repos[..i]))
    {
      var l := RepoLanguage(repos[i]);
      var before := TruthyLanguages(repos[..i]);
      GitHub.GatherSnoc(repos, RepoLanguage, i);
      if l != [] {
        GitHub.DedupSnoc(before, l[0]);
        if l[0] !in acc {
          acc := acc + [l[0]];
        }
      } else {
        assert before + l == before;
      }
    }
    assert repos[..|repos|] == repos;
  }

  /** `getUserData`, with the errors it throws as `Err`. */
  method GetUserData(user: Option<string>, row: Option<string>, profile: Option<Profile>, repos: Option<seq<Repo>>)
    returns (r: Result<UserData>)
    ensures r == UserDataOf(user, row, profile, repos)
  {
    var token := GitHub.FetchToken(user, row);
    if token.Err? {
      return Err(token.error);
    }
    if profile.None? {
      return Err(UserNotFound);
    }
    if repos.None? {
      return Err(ReposFailure);
    }
    var p := profile.value;
    var languages := CollectLanguages(repos.value);
    r := Ok(UserData(p.name, p.bio, p.avatarUrl, repos.value, languages, Stars(repos.value)));
  }

  /** `repositories.slice(0, 6)`. */
  function Featured(repos: seq<Repo>): (r: seq<Repo>)
    ensures |r| == if |repos| <= FeaturedCount then |repos| else FeaturedCount
    ensures forall i :: 0 <= i < |r| ==> r[i] == repos[i]
  {
    if |repos| <= FeaturedCount then repos else repos[..FeaturedCount]
  }

  /** `portfolioData`. */
  function DataOf(u: UserData): Data
  {
    Data(u.name, u.bio, u.avatarUrl, Featured(u.repositories), u.languages, u.contributions)
  }

  /** How a template literal writes a string that may be `null`. */
  function Shown(s: Option<string>): (r: string)
    ensures s.None? ==> r == "null"
    ensures s.Some? ==> r == s.value
  {
    match s
    case None => "null"
    case Some(v) => v
  }

  /** `repo.description || 'No description available'`. */
  function Described(d: Option<string>): (r: string)
    ensures d.None? || d.value == "" ==> r == NoDescription
    ensures d.Some? && d.value != "" ==> r == d.value
  {
    if d.Some? && d.value != "" then d.value else NoDescription
  }

  /** What a project card shows of a repository, in order: its name, its
      description, its language and its link. */
  function CardFields(repo: Repo): seq<string>
  {
    [repo.name, Described(repo.description), Shown(repo.language), repo.htmlUrl]
  }

  function CardRows(repos: seq<Repo>): (rows: seq<seq<string>>)
    ensures |rows| == |repos|
    ensures forall i :: 0 <= i < |repos| ==> rows[i] == CardFields(repos[i])
  {
    seq(|repos|, i requires 0 <= i < |repos| => CardFields(repos[i]))
  }

  function TagRows(languages: seq<string>): (rows: seq<seq<string>>)
    ensures |rows| == |languages|
    ensures forall i :: 0 <= i < |languages| ==> rows[i] == [languages[i]]
  {
    seq(|languages|, i requires 0 <= i < |languages| => [languages[i]])
  }

  /** The literal pieces of one technology tag. */
  const TagLits: seq<string> := ["<span class=\"tag\">", "</span>"]

  /** The literal pieces of one project card of `index.html`. */
  const CardLits: seq<string> := [
    "\n" +
    "                    <div class=\"project-card\">\n" +
    "                        <h3>",
    "</h3>\n" +
    "                        <p>",
    "</p>\n" +
    "                        <div class=\"project-footer\">\n" +
    "                            <span>",
    "</span>\n" +
    "                            <a href=\"",
    "\" target=\"_blank\">View Project</a>\n" +
    "                        </div>\n" +
    "                    </div>\n" +
    "                "
  ]

  /** The literal pieces of `index.html` around the name, the avatar, the
      name again, the bio, the tags and the project cards. */
  const PageLits: seq<string> := [
    "<!DOCTYPE html>\n" +
    "<html lang=\"en\">\n" +
    "<head>\n" +
    "    <meta charset=\"UTF-8\">\n" +
    "    <meta name=\"viewport\" content=\"width=device-width, initial-scale=1.0\">\n" +
    "    <title>",
    "'s Portfolio</title>\n" +
    "    <link rel=\"stylesheet\" href=\"styles.css\">\n" +
    "</head>\n" +
    "<body>\n" +
    "    <header>\n" +
    "        <div class=\"container\">\n" +
    "            <img src=\"",
    "\" alt=\"Profile\" class=\"profile-image\">\n" +
    "            <h1>",
    "</h1>\n" +
    "            <p class=\"bio\">",
    "</p>\n" +
    "        </div>\n" +
    "    </header>\n" +
    "    \n" +
    "    <main class=\"container\">\n" +
    "        <section class=\"skills\">\n" +
    "            <h2>Technologies</h2>\n" +
    "            <div class=\"tags\">\n" +
    "                ",
    "\n" +
    "            </div>\n" +
    "        </section>\n" +
    "\n" +
    "        <section class=\"projects\">\n" +
    "            <h2>Featured Projects</h2>\n" +
    "            <div class=\"project-grid\">\n" +
    "                ",
    "\n" +
    "            </div>\n" +
    "        </section>\n" +
    "    </main>\n" +
    "\n" +
    "    <footer>\n" +
    "        <div class=\"container\">\n" +
    "            <p>Created with \U{2764}\U{FE0F} using GitHub Tools Hub</p>\n" +
    "        </div>\n" +
    "    </footer>\n" +
    "</body>\n" +
    "</html>"
  ]

  /** The literal pieces of one project entry of `README.md`. */
  const ReadmeCardLits: seq<string> := ["\n### ", "\n", "\n- Language: ", "\n- [View Project](", ")\n"]

  /** The literal pieces of `README.md` around the name, the bio, the
      technology list and the project entries. */
  const ReadmeLits: seq<string> := [
    "# ",
    "'s Portfolio\n" +
    "\n" +
    "This portfolio was generated using GitHub Tools Hub.\n" +
    "\n" +
    "## About Me\n" +
    "\n",
    "\n" +
    "\n" +
    "## Technologies\n" +
    "\n",
    "\n" +
    "\n" +
    "## Featured Projects\n" +
    "\n",
    "\n"
  ]

  /** `netlify.toml`. */
  const NetlifyConfig :=
    "[build]\n" +
    "  publish = \".\"\n" +
    "  \n" +
    "[build.processing]\n" +
    "  skip_processing = false\n" +
    "[build.processing.html]\n" +
    "  pretty_urls = true\n" +
    "[build.processing.css]\n" +
    "  bundle = true\n" +
    "  minify = true\n" +
    "[build.processing.js]\n" +
    "  bundle = true\n" +
    "  minify = true\n" +
    "[build.processing.images]\n" +
    "  compress = true"

  /** The tags block: one tag per language, joined with nothing between. */
  function Tags(languages: seq<string>): string
  {
    Text.Concat(Template.Fills(TagLits, TagRows(languages)))
  }

  /** The project grid: one card per repository, joined with nothing between. */
  function Cards(repos: seq<Repo>): string
  {
    Text.Concat(Template.Fills(CardLits, CardRows(repos)))
  }

  /** `generateHTMLContent`. */
  function Html(d: Data): string
  {
    Template.Fill(PageLits, [Shown(d.name), d.avatar, Shown(d.name), Shown(d.bio), Tags(d.languages), Cards(d.repos)])
  }

  /** The technology list of the README: one `- ` line per language. */
  function TechList(languages: seq<string>): string
  {
    Text.Join(seq(|languages|, i requires 0 <= i < |languages| => "- " + languages[i]), "\n")
  }

  /** The project entries of the README, joined with a line break. */
  function ReadmeProjects(repos: seq<Repo>): string
  {
    Text.Join(Template.Fills(ReadmeCardLits, CardRows(repos)), "\n")
  }

  /** `generateReadme`. */
  function Readme(d: Data): string
  {
    Template.Fill(ReadmeLits, [Shown(d.name), Shown(d.bio), TechList(d.languages), ReadmeProjects(d.repos)])
  }

  /** The names of the generated files. */
  const FileNames: set<string> := {"index.html", "styles.css", "README.md", "netlify.toml"}

  /** `generateSourceCode`; `stylesheet` is the fixed text of
      `generateStyles`. */
  function SourceCode(d: Data, stylesheet: string): (files: map<string, string>)
    ensures files.Keys == FileNames
    ensures files["index.html"] == Html(d) && files["README.md"] == Readme(d)
    ensures files["styles.css"] == stylesheet && files["netlify.toml"] == NetlifyConfig
  {
    map["index.html" := Html(d), "styles.css" := stylesheet, "README.md" := Readme(d), "netlify.toml" := NetlifyConfig]
  }

  /** `generatePortfolioContent`: the site files and the preview, or the
      error `getUserData` throws. */
  method GeneratePortfolioContent(user: Option<string>, row: Option<string>, profile: Option<Profile>, repos: Option<seq<Repo>>, stylesheet: string)
    returns (r: Result<Generated>)
    ensures UserDataOf(user, row, profile, repos).Err? ==> r == Err(UserDataOf(user, row, profile, repos).error)
    ensures UserDataOf(user, row, profile, repos).Ok? ==>
      var d := DataOf(UserDataOf(user, row, profile, repos).value);
      r.Ok? && r.value.files.Keys == FileNames &&
      r.value.previewHtml == r.value.files["index.html"] && r.value.previewHtml == Html(d) &&
      r.value.files["README.md"] == Readme(d)
  {
    var u := GetUserData(user, row, profile, repos);
    if u.Err? {
      return Err(u.error);
    }
    var d := DataOf(u.value);
    var files := SourceCode(d, stylesheet);
    r := Ok(Generated(files, Html(d)));
  }

  /** The portfolio shows the first six repositories, in their order, and
      the languages and contributions of all of them. */
  lemma PortfolioData(u: UserData)
    ensures DataOf(u).repos == u.repositories[..|DataOf(u).repos|]
    ensures |u.repositories| <= FeaturedCount ==> DataOf(u).repos == u.repositories
    ensures |u.repositories| > FeaturedCount ==> |DataOf(u).repos| == FeaturedCount
    ensures DataOf(u).languages == u.languages && DataOf(u).contributions == u.contributions
  {
  }

  /** A value a page writes can be found again only if it does not contain
      the character that ends it. */
  predicate HtmlSafe(repo: Repo)
  {
    '<' !in repo.name && '"' !in repo.htmlUrl &&
    (repo.description.Some? ==> '<' !in repo.description.value) &&
    (repo.language.Some? ==> '<' !in repo.language.value)
  }

  predicate ReadmeSafe(repo: Repo)
  {
    '\n' !in repo.name && ')' !in repo.htmlUrl &&
    (repo.description.Some? ==> '\n' !in repo.description.value) &&
    (repo.language.Some? ==> '\n' !in repo.language.value)
  }

  lemma TagLitsOk()
    ensures Template.Literals(TagLits) && |TagLits[0]| > 0 && TagLits[1][0] == '<'
  {
  }

  /** The tags block holds one tag per language, in order, when no
      language contains `<`. */
  lemma TagsReadBack(languages: seq<string>)
    requires forall i :: 0 <= i < |languages| ==> '<' !in languages[i]
    ensures var r := Template.UnfillAll(TagLits, Tags(languages));
      r.Some? && |r.value| == |languages| &&
      forall i :: 0 <= i < |languages| ==> r.value[i] == [languages[i]]
  {
    TagLitsOk();
    var rows := TagRows(languages);
    forall i | 0 <= i < |rows|
      ensures |TagLits| == |rows[i]| + 1 && Template.Fits(TagLits, rows[i])
    {
    }
    Template.UnfillAllFills(TagLits, rows);
  }

  lemma CardLitsOk()
    ensures Template.Literals(CardLits) && |CardLits[0]| > 0
    ensures CardLits[1][0] == '<' && CardLits[2][0] == '<' && CardLits[3][0] == '<' && CardLits[4][0] == '"'
  {
  }

  lemma CardFits(repo: Repo)
    requires HtmlSafe(repo)
    ensures |CardLits| == |CardFields(repo)| + 1 && Template.Fits(CardLits, CardFields(repo))
  {
    CardLitsOk();
    var f := CardFields(repo);
    assert '<' !in f[1] by {
      if repo.description.None? || repo.description.value == "" {
        assert f[1] == NoDescription;
      }
    }
    assert '<' !in f[2] by {
      if repo.language.None? {
        assert f[2] == "null";
      }
    }
  }

  /** The project grid holds one card per repository, in order, showing
      its name, its description or the placeholder, its language and its
      link, when these contain nothing that would end them early. */
  lemma CardsReadBack(repos: seq<Repo>)
    requires forall i :: 0 <= i < |repos| ==> HtmlSafe(repos[i])
    ensures var r := Template.UnfillAll(CardLits, Cards(repos));
      r.Some? && |r.value| == |repos| &&
      forall i :: 0 <= i < |repos| ==>
        r.value[i] == [repos[i].name, Described(repos[i].description), Shown(repos[i].language), repos[i].htmlUrl]
  {
    CardLitsOk();
    var rows := CardRows(repos);
    forall i | 0 <= i < |rows|
      ensures |CardLits| == |rows[i]| + 1 && Template.Fits(CardLits, rows[i])
    {
      CardFits(repos[i]);
    }
    Template.UnfillAllFills(CardLits, rows);
  }

  lemma ReadmeCardLitsOk()
    ensures Template.Literals(ReadmeCardLits) && |ReadmeCardLits[0]| > 0
    ensures ReadmeCardLits[1][0] == '\n' && ReadmeCardLits[2][0] == '\n' && ReadmeCardLits[3][0] == '\n' && ReadmeCardLits[4][0] == ')'
  {
  }

  lemma ReadmeCardFits(repo: Repo)
    requires ReadmeSafe(repo)
    ensures |ReadmeCardLits| == |CardFields(repo)| + 1 && Template.Fits(ReadmeCardLits, CardFields(repo))
  {
    ReadmeCardLitsOk();
    var f := CardFields(repo);
    assert '\n' !in f[1] by {
      if repo.description.None? || repo.description.value == "" {
        assert f[1] == NoDescription;
      }
    }
    assert '\n' !in f[2] by {
      if repo.language.None? {
        assert f[2] == "null";
      }
    }
  }

  /** The README lists one project entry per repository, in order, with the
      same name, description, language and link as the cards of the page. */
  lemma ReadmeProjectsReadBack(repos: seq<Repo>)
    requires |repos| >= 1
    requires forall i :: 0 <= i < |repos| ==> ReadmeSafe(repos[i])
    ensures var r := Template.UnfillJoined(ReadmeCardLits, "\n", ReadmeProjects(repos));
      r.Some? && |r.value| == |repos| &&
      forall i :: 0 <= i < |repos| ==> r.value[i] == CardFields(repos[i])
  {
    ReadmeCardLitsOk();
    var rows := CardRows(repos);
    forall i | 0 <= i < |rows|
      ensures |ReadmeCardLits| == |rows[i]| + 1 && Template.Fits(ReadmeCardLits, rows[i])
    {
      ReadmeCardFits(repos[i]);
    }
    Template.UnfillJoinedFills(ReadmeCardLits, "\n", rows);
  }

  /** The technology list of the README has one `- ` line per language, in
      order, when there is a language and none contains a line break. */
  lemma TechListLines(languages: seq<string>)
    requires |languages| >= 1
    requires forall i :: 0 <= i < |languages| ==> '\n' !in languages[i]
    ensures var lines := Text.Split(TechList(languages), "\n");
      |lines| == |languages| &&
      forall i :: 0 <= i < |languages| ==> lines[i] == "- " + languages[i]
  {
    var lines := seq(|languages|, i requires 0 <= i < |languages| => "- " + languages[i]);
    forall i | 0 <= i < |lines|
      ensures '\n' !in lines[i]
    {
      assert lines[i] == "- " + languages[i];
    }
    Text.SplitJoin(lines, '\n');
  }
}
