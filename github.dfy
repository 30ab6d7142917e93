/** What several pages share about a GitHub account: the token lookup
    (`fetchGitHubToken`) and the profile summary that collects, over a
    user's repositories, each language and each `package.json` dependency
    name once, in first-seen order. */
module GitHub {
  import opened Wrappers
  import opened Json
  import Text

  /** `fetchGitHubToken`: `user` is the signed-in user's id, if any, and
      `row` the token stored for that user, if the lookup found one. */
  function FetchToken(user: Option<string>, row: Option<string>): (r: Result<string>)
    ensures r.Ok? <==> user.Some? && row.Some?
    ensures r.Ok? ==> r.value == row.value
    ensures user.None? ==> r == Err("Not authenticated")
    ensures user.Some? && row.None? ==> r == Err("GitHub token not found")
  {
    if user.None? then Err("Not authenticated")
    else if row.None? then Err("GitHub token not found")
    else Ok(row.value)
  }

  predicate Distinct<T(==)>(s: seq<T>)
  {
    forall i, j :: 0 <= i < j < |s| ==> s[i] != s[j]
  }

  /** The position of the first occurrence of `x` in `s`. */
  function FirstIndex<T(==)>(s: seq<T>, x: T): (k: nat)
    requires x in s
    ensures k < |s| && s[k] == x
    ensures forall i :: 0 <= i < k ==> s[i] != x
  {
    if s[0] == x then 0 else 1 + FirstIndex(s[1..], x)
  }

  /** Adding the elements of `s` one by one to an insertion-ordered set
      (a JavaScript `Set`, or an array guarded by `includes`). */
  function Dedup<T(==)>(s: seq<T>): (r: seq<T>)
  {
    if |s| == 0 then []
    else
      var d := Dedup(s[..|s| - 1]);
      if s[|s| - 1] in d then d else d + [s[|s| - 1]]
  }

  /** The set holds exactly the elements added to it. */
  lemma {:induction false} DedupMembers<T>(s: seq<T>, x: T)
    ensures x in Dedup(s) <==> x in s
  {
    if |s| > 0 {
      DedupMembers(s[..|s| - 1], x);
      assert s == s[..|s| - 1] + [s[|s| - 1]];
    }
  }

  /** Each element is held once. */
  lemma {:induction false} DedupDistinct<T>(s: seq<T>)
    ensures Distinct(Dedup(s))
  {
    if |s| > 0 {
      DedupDistinct(s[..|s| - 1]);
    }
  }

  /** Elements are held in the order of their first occurrence. */
  lemma {:induction false} DedupFirstSeen<T>(s: seq<T>, i: nat, j: nat)
    requires i < j < |Dedup(s)|
    ensures Dedup(s)[i] in s && Dedup(s)[j] in s
    ensures FirstIndex(s, Dedup(s)[i]) < FirstIndex(s, Dedup(s)[j])
  {
    var p := s[..|s| - 1];
    var d := Dedup(p);
    var last := s[|s| - 1];
    DedupMembers(p, d[i]);
    FirstIndexPrefix(s, d[i]);
    if j < |d| {
      DedupMembers(p, d[j]);
      FirstIndexPrefix(s, d[j]);
      DedupFirstSeen(p, i, j);
    } else {
      assert Dedup(s) == d + [last] && last !in d;
      DedupMembers(p, last);
      FirstIndexLast(s);
    }
  }

  lemma FirstIndexPrefix<T>(s: seq<T>, x: T)
    requires |s| > 0 && x in s[..|s| - 1]
    ensures x in s && FirstIndex(s, x) == FirstIndex(s[..|s| - 1], x)
  {
    var p := s[..|s| - 1];
    var k := FirstIndex(p, x);
    assert s[k] == x;
    assert forall i :: 0 <= i < k ==> s[i] == p[i];
  }

  lemma FirstIndexLast<T>(s: seq<T>)
    requires |s| > 0 && s[|s| - 1] !in s[..|s| - 1]
    ensures FirstIndex(s, s[|s| - 1]) == |s| - 1
  {
  }

  /** Adding one more element. */
  lemma DedupSnoc<T>(s: seq<T>, x: T)
    ensures Dedup(s + [x]) == if x in Dedup(s) then Dedup(s) else Dedup(s) + [x]
  {
    assert (s + [x])[..|s|] == s;
  }

  /** Adding several more elements, one after another. */
  lemma {:induction false} DedupAppend<T>(s: seq<T>, t: seq<T>)
    ensures Dedup(s + t) == Dedup(Dedup(s) + t)
    decreases |t|
  {
    if |t| == 0 {
      assert s + t == s;
      assert Dedup(s) + t == Dedup(s);
      DedupIdempotent(s);
    } else {
      var t' := t[..|t| - 1];
      var x := t[|t| - 1];
      DedupAppend(s, t');
      assert s + t == (s + t') + [x];
      assert Dedup(s) + t == (Dedup(s) + t') + [x];
      DedupSnoc(s + t', x);
      DedupSnoc(Dedup(s) + t', x);
    }
  }

  /** A sequence without repetitions is its own insertion-ordered set. */
  lemma {:induction false} DedupOfDistinct<T>(s: seq<T>)
    requires Distinct(s)
    ensures Dedup(s) == s
  {
    if |s| > 0 {
      var p := s[..|s| - 1];
      assert Distinct(p);
      DedupOfDistinct(p);
      assert s[|s| - 1] !in p;
      assert s == p + [s[|s| - 1]];
    }
  }

  lemma DedupIdempotent<T>(s: seq<T>)
    ensures Dedup(Dedup(s)) == Dedup(s)
  {
    DedupDistinct(s);
    DedupOfDistinct(Dedup(s));
  }

  /** The summary a profile analysis produces. `languages` holds the
      `repo.language` values as JSON values; `technologies` the dependency names. */
  datatype Stack = Stack(languages: seq<Json>, technologies: seq<string>, repoCount: nat)

  /** What `if (repo.language) languages.add(repo.language)` contributes. */
  function LanguageOf(repo: Json): (r: seq<Json>)
    ensures |r| <= 1
    ensures |r| == 1 ==> repo.Obj? && Truthy(Defined(r[0]))
  {
    match Get(repo, "language")
    case Ok(p) => if Truthy(p) then [p.v] else []
    case Err(_) => []
  }

  /** The dependency names a repository contributes. `package(repo)` is its
      parsed `package.json`, or `None` when the request is refused or the
      decoding or the parse throws; all of these are swallowed, as is
      reading `dependencies` of a `null` manifest. */
  function DependenciesOf(repo: Json, package: Json -> Option<Json>): seq<string>
  {
    match package(repo)
    case None => []
    case Some(manifest) =>
      match Get(manifest, "dependencies")
      case Err(_) => []
      case Ok(deps) => if Truthy(deps) then Keys(deps.v) else []
  }

  /** What `f` yields for each element of `xs`, in order, with repetitions. */
  function Gather<A, T>(xs: seq<A>, f: A -> seq<T>): seq<T>
  {
    if |xs| == 0 then [] else Gather(xs[..|xs| - 1], f) + f(xs[|xs| - 1])
  }

  lemma GatherSnoc<A, T>(xs: seq<A>, f: A -> seq<T>, i: nat)
    requires i < |xs|
    ensures Gather(xs[..i + 1], f) == Gather(xs[..i], f) + f(xs[i])
  {
    assert xs[..i + 1][..i] == xs[..i];
  }

  /** An element is gathered exactly when some element of `xs` yields it. */
  lemma {:induction false} GatherMembers<A, T>(xs: seq<A>, f: A -> seq<T>, x: T)
    ensures x in Gather(xs, f) <==> exists i :: 0 <= i < |xs| && x in f(xs[i])
  {
    if |xs| > 0 {
      var p := xs[..|xs| - 1];
      GatherMembers(p, f, x);
      if x in Gather(p, f) {
        var i :| 0 <= i < |p| && x in f(p[i]);
        assert xs[i] == p[i];
      }
      if exists i :: 0 <= i < |xs| && x in f(xs[i]) {
        var i :| 0 <= i < |xs| && x in f(xs[i]);
        if i < |p| { assert p[i] == xs[i]; }
      }
    }
  }

  /** Every dependency-name list, one per repository. */
  function DependencyNames(package: Json -> Option<Json>): Json -> seq<string>
  {
    repo => DependenciesOf(repo, package)
  }

  /** The profile of a list of repositories. Reading `language` of a `null`
      entry throws outside the guarded block and aborts the analysis. */
  function StackOf(repos: seq<Json>, package: Json -> Option<Json>): Result<Stack>
  {
    if exists i :: 0 <= i < |repos| && repos[i].Null? then Err(NullReadMessage("language"))
    else Ok(Stack(Dedup(Gather(repos, LanguageOf)), Dedup(Gather(repos, DependencyNames(package))), |repos|))
  }

  /** `names.forEach(n => set.add(n))` on an insertion-ordered set. */
  method AddAll<T(==)>(acc: seq<T>, names: seq<T>, ghost base: seq<T>) returns (r: seq<T>)
    requires acc == Dedup(base)
    ensures r == Dedup(base + names)
  {
    r := acc;
    assert base + names[..0] == base;
    for j := 0 to |names|
      invariant r == Dedup(base + names[..j])
    {
      assert base + names[..j + 1] == (base + names[..j]) + [names[j]];
      DedupSnoc(base + names[..j], names[j]);
      if names[j] !in r {
        r := r + [names[j]];
      }
    }
    assert names[..|names|] == names;
  }

  /** One repository's step on the language set. */
  lemma LanguageStep(repos: seq<Json>, i: nat, languages: seq<Json>)
    requires i < |repos| && languages == Dedup(Gather(repos[..i], LanguageOf))
    ensures var l := LanguageOf(repos[i]);
      Dedup(Gather(repos[..i + 1], LanguageOf)) == if |l| == 1 && l[0] !in languages then languages + l else languages
  {
    var l := LanguageOf(repos[i]);
    var s := Gather(repos[..i], LanguageOf);
    GatherSnoc(repos, LanguageOf, i);
    if |l| == 1 {
      assert l == [l[0]];
      DedupSnoc(s, l[0]);
    } else {
      assert s + l == s;
    }
  }

  /** The analysis loop: for each repository, add its language to one set
      and its dependency names, one at a time, to another. */
  method AnalyzeStack(repos: seq<Json>, package: Json -> Option<Json>) returns (r: Result<Stack>)
    ensures r == StackOf(repos, package)
  {
    var languages: seq<Json> := [];
    var technologies: seq<string> := [];
    for i := 0 to |repos|
      invariant forall k :: 0 <= k < i ==> !repos[k].Null?
      invariant languages == Dedup(Gather(repos[..i], LanguageOf))
      invariant technologies == Dedup(Gather(repos[..i], DependencyNames(package)))
    {
      if repos[i].Null? {
        return Err(NullReadMessage("language"));
      }
      assert forall k :: 0 <= k < i + 1 ==> !repos[k].Null?;
      languages, technologies := AnalyzeRepo(repos, i, package, languages, technologies);
    }
    assert repos[..|repos|] == repos;
    r := Ok(Stack(languages, technologies, |repos|));
  }

  /** The loop body for the repository at index `i`. */
  method AnalyzeRepo(repos: seq<Json>, i: nat, package: Json -> Option<Json>, languages: seq<Json>, technologies: seq<string>)
    returns (languages': seq<Json>, technologies': seq<string>)
    requires i < |repos|
    requires languages == Dedup(Gather(repos[..i], LanguageOf))
    requires technologies == Dedup(Gather(repos[..i], DependencyNames(package)))
    ensures languages' == Dedup(Gather(repos[..i + 1], LanguageOf))
    ensures technologies' == Dedup(Gather(repos[..i + 1], DependencyNames(package)))
  {
    var language := LanguageOf(repos[i]);
    LanguageStep(repos, i, languages);
    languages' := languages;
    if |language| == 1 && language[0] !in languages {
      languages' := languages + language;
    }
    GatherSnoc(repos, DependencyNames(package), i);
    technologies' := AddAll(technologies, DependenciesOf(repos[i], package), Gather(repos[..i], DependencyNames(package)));
  }

  /** The languages of a successful analysis are exactly the truthy
      `language` values of the repositories, each once, in first-seen
      order; `repoCount` is the number of repositories. */
  lemma StackLanguages(repos: seq<Json>, package: Json -> Option<Json>, v: Json)
    requires StackOf(repos, package).Ok?
    ensures v in StackOf(repos, package).value.languages <==>
      exists i :: 0 <= i < |repos| && Get(repos[i], "language") == Ok(Defined(v)) && Truthy(Defined(v))
    ensures Distinct(StackOf(repos, package).value.languages)
    ensures StackOf(repos, package).value.repoCount == |repos|
  {
    DedupMembers(Gather(repos, LanguageOf), v);
    DedupDistinct(Gather(repos, LanguageOf));
    GatherMembers(repos, LanguageOf, v);
    forall i | 0 <= i < |repos|
      ensures v in LanguageOf(repos[i]) <==> Get(repos[i], "language") == Ok(Defined(v)) && Truthy(Defined(v))
    {
    }
  }

  /** A repository whose manifest cannot be read adds no dependency name,
      and the analysis still goes on to the next one. */
  lemma UnreadableManifestAddsNothing(repos: seq<Json>, repo: Json, package: Json -> Option<Json>)
    requires package(repo).None?
    ensures Gather(repos + [repo], DependencyNames(package)) == Gather(repos, DependencyNames(package))
  {
    assert (repos + [repo])[..|repos|] == repos;
  }

  /** The dependency names of a successful analysis are the union, over the
      repositories with a readable manifest, of the keys of its truthy
      `dependencies`, each once. */
  lemma StackTechnologies(repos: seq<Json>, package: Json -> Option<Json>, name: string)
    requires StackOf(repos, package).Ok?
    ensures name in StackOf(repos, package).value.technologies <==>
      exists i :: 0 <= i < |repos| && name in DependenciesOf(repos[i], package)
    ensures Distinct(StackOf(repos, package).value.technologies)
  {
    var names := DependencyNames(package);
    DedupMembers(Gather(repos, names), name);
    DedupDistinct(Gather(repos, names));
    GatherMembers(repos, names, name);
  }

  /** `parts.filter(Boolean)` on strings: the non-empty ones, in order. */
  function NonEmpty(parts: seq<string>): (r: seq<string>)
    ensures forall k :: 0 <= k < |r| ==> r[k] != "" && r[k] in parts
    ensures |r| <= |parts|
  {
    if |parts| == 0 then []
    else if parts[0] == "" then NonEmpty(parts[1..])
    else [parts[0]] + NonEmpty(parts[1..])
  }

  /** `pathname.split('/').filter(Boolean)`. */
  function PathSegments(pathname: string): (r: seq<string>)
    ensures forall k :: 0 <= k < |r| ==> r[k] != "" && '/' !in r[k]
  {
    Text.SplitPiecesAvoidSeparator(pathname, '/');
    NonEmpty(Text.Split(pathname, "/"))
  }

  /** The segments, read one after another, are the path with its slashes deleted. */
  lemma PathSegmentsConcat(pathname: string)
    ensures Text.Concat(PathSegments(pathname)) == Text.RemoveAll(pathname, "/")
  {
    NonEmptyConcat(Text.Split(pathname, "/"));
    SplitConcat(pathname);
  }

  lemma {:induction false} NonEmptyConcat(parts: seq<string>)
    ensures Text.Concat(NonEmpty(parts)) == Text.Concat(parts)
  {
    if |parts| > 0 {
      var tail := NonEmpty(parts[1..]);
      NonEmptyConcat(parts[1..]);
      assert Text.Concat(parts) == parts[0] + Text.Concat(parts[1..]);
      if parts[0] == "" {
        assert NonEmpty(parts) == tail;
        assert parts[0] + Text.Concat(parts[1..]) == Text.Concat(parts[1..]);
      } else {
        var r := [parts[0]] + tail;
        assert NonEmpty(parts) == r;
        assert r[1..] == tail;
        assert Text.Concat(r) == parts[0] + Text.Concat(tail);
      }
    }
  }

  lemma {:induction false} SplitConcat(s: string)
    ensures Text.Concat(Text.Split(s, "/")) == Text.RemoveAll(s, "/")
    decreases |s|
  {
    if |s| >= 1 {
      var rest := Text.Split(s[1..], "/");
      SplitConcat(s[1..]);
      if s[..1] != "/" {
        var r := Text.Split(s, "/");
        assert r == [[s[0]] + rest[0]] + rest[1..];
        assert r[1..] == rest[1..];
        assert Text.Concat(rest) == rest[0] + Text.Concat(rest[1..]);
      }
    }
  }

  /** `const [owner, repo] = urlParts` after the length check; `pathname`
      is what `new URL(repoUrl).pathname` gives, or the message it throws. */
  function OwnerAndRepo(pathname: Result<string>): (r: Result<(string, string)>)
    ensures pathname.Err? ==> r == Err(pathname.error)
    ensures pathname.Ok? && |PathSegments(pathname.value)| < 2 ==> r == Err("Invalid repository URL")
    ensures pathname.Ok? && |PathSegments(pathname.value)| >= 2 ==>
      r == Ok((PathSegments(pathname.value)[0], PathSegments(pathname.value)[1]))
    ensures r.Ok? ==> r.value.0 != "" && r.value.1 != "" && '/' !in r.value.0 && '/' !in r.value.1
  {
    match pathname
    case Err(e) => Err(e)
    case Ok(p) =>
      var parts := PathSegments(p);
      if |parts| < 2 then Err("Invalid repository URL") else Ok((parts[0], parts[1]))
  }

  /** The token lookup, the repositories request (`repos` is `None` when it
      is refused) and the analysis loop, as `analyzeUserProfile` and the
      learning page run them. */
  method AnalyzeProfile(user: Option<string>, row: Option<string>, repos: Option<seq<Json>>,
                        package: Json -> Option<Json>) returns (r: Result<Stack>)
    ensures FetchToken(user, row).Err? ==> r == Err(FetchToken(user, row).error)
    ensures FetchToken(user, row).Ok? && repos.None? ==> r == Err("Failed to fetch repositories")
    ensures FetchToken(user, row).Ok? && repos.Some? ==> r == StackOf(repos.value, package)
  {
    var token := FetchToken(user, row);
    if token.Err? {
      return Err(token.error);
    }
    if repos.None? {
      return Err("Failed to fetch repositories");
    }
    r := AnalyzeStack(repos.value, package);
  }
}
