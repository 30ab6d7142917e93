/** The codebase-visualizer page: the repository's file tree and
    dependency manifest are summarised for a language model, whose reply
    must carry three diagrams and a summary. */
module Visualizer {
  import opened Wrappers
  import opened Json
  import Text
  import Cleanup
  import Validation
  import GitHub

  const VisualizationFields: seq<string> := ["flowchart", "dependencies", "structure", "summary"]

  const ParseFailure := "Failed to parse visualization data. Please try again."

  const BlankUrl := "Please enter a repository URL"

  /** The reply's clean-up (with the smart-quote mapping), parse and
      required-field check. */
  function ParseVisualization(reply: string, parse: string -> Result<Json>): (r: Validation.Outcome)
    ensures r.Rejected? ==> r.message == ParseFailure
    ensures r.Accepted? ==> parse(Cleanup.Clean(reply, true)) == Ok(r.value)
  {
    Validation.Validate(parse(Cleanup.Clean(reply, true)), VisualizationFields, ParseFailure)
  }

  /** A reply is accepted exactly when its cleaned text parses to a value
      whose four fields are all truthy. */
  lemma VisualizationAccepted(reply: string, parse: string -> Result<Json>)
    ensures ParseVisualization(reply, parse).Accepted? <==>
      var parsed := parse(Cleanup.Clean(reply, true));
      parsed.Ok? && !parsed.value.Null? &&
      forall f :: f in VisualizationFields ==> Truthy(Get(parsed.value, f).value)
  {
    Validation.ValidateAccepts(parse(Cleanup.Clean(reply, true)), VisualizationFields, ParseFailure);
  }

  /** The field the active view draws: `flow` the flowchart, `deps` the
      dependency diagram, any other view the structure. */
  function DiagramField(view: string): (f: string)
    ensures f in VisualizationFields && f != "summary"
    ensures f == "flowchart" <==> view == "flow"
    ensures f == "dependencies" <==> view == "deps"
  {
    if view == "flow" then "flowchart" else if view == "deps" then "dependencies" else "structure"
  }

  /** The diagram source for the active view. */
  function Diagram(visualization: Json, view: string): Prop
  {
    match Get(visualization, DiagramField(view))
    case Ok(p) => p
    case Err(_) => Undefined
  }

  /** An accepted visualization has a (truthy) diagram for every view. */
  lemma DiagramPresent(reply: string, parse: string -> Result<Json>, view: string)
    requires ParseVisualization(reply, parse).Accepted?
    ensures Truthy(Diagram(ParseVisualization(reply, parse).value, view))
  {
    VisualizationAccepted(reply, parse);
  }

  /** A tree entry whose `path` is `package.json`. */
  predicate IsManifestEntry(e: Json)
  {
    Get(e, "path") == Ok(Defined(Str("package.json")))
  }

  /** Where `find` stops: the first entry that is `null` (its `path` read
      throws) or whose path is `package.json`, or the end of the tree. */
  function FindStop(tree: seq<Json>): (i: nat)
    ensures i <= |tree|
    ensures forall k :: 0 <= k < i ==> tree[k] != Null && !IsManifestEntry(tree[k])
    ensures i < |tree| ==> tree[i] == Null || IsManifestEntry(tree[i])
  {
    if |tree| == 0 || tree[0] == Null || IsManifestEntry(tree[0]) then 0
    else
      var i := FindStop(tree[1..]);
      assert forall k :: 1 <= k < |tree| ==> tree[k] == tree[1..][k - 1];
      i + 1
  }

  /** `data.tree.find(file => file.path === 'package.json')`: the first tree
      entry with that path, if any. Reading `path` of a `null` entry throws. */
  function FindManifest(tree: seq<Json>): (r: Result<Option<Json>>)
    ensures r.Ok? && r.value.Some? ==>
      r.value.value in tree && Get(r.value.value, "path") == Ok(Defined(Str("package.json")))
    ensures r.Ok? && r.value.None? ==>
      forall k :: 0 <= k < |tree| ==> Get(tree[k], "path") != Ok(Defined(Str("package.json")))
    ensures r.Err? ==> r.error == NullReadMessage("path") && Null in tree
    ensures r.Err? <==> FindStop(tree) < |tree| && tree[FindStop(tree)] == Null
    ensures r.Ok? && r.value.Some? <==> FindStop(tree) < |tree| && tree[FindStop(tree)] != Null
    ensures r.Ok? && r.value.Some? ==> r.value.value == tree[FindStop(tree)]
    ensures r == Ok(None) <==> FindStop(tree) == |tree|
  {
    if |tree| == 0 then Ok(None)
    else
      match Get(tree[0], "path")
      case Err(e) => Err(e)
      case Ok(p) =>
        if p == Defined(Str("package.json")) then Ok(Some(tree[0]))
        else
          var rest := FindManifest(tree[1..]);
          assert forall k :: 1 <= k < |tree| ==> tree[k] == tree[1..][k - 1];
          assert FindStop(tree) == FindStop(tree[1..]) + 1;
          rest
  }

  /** The `dependencies` value sent with the prompt. `found` is the manifest
      entry of the tree; `manifest` is `None` when its request is refused,
      and otherwise the decoded and parsed content or the message of a
      throw from `atob` or `JSON.parse`. */
  function Dependencies(found: Option<Json>, manifest: Option<Result<Json>>): (r: Result<Json>)
    ensures found.None? ==> r == Ok(Obj([]))
    ensures found.Some? && Truthy(Defined(found.value)) && manifest.None? ==> r == Ok(Obj([]))
    ensures found.Some? && Truthy(Defined(found.value)) && manifest.Some? && manifest.value.Err? ==>
      r == Err(manifest.value.error)
    ensures found.Some? && Truthy(Defined(found.value)) && manifest == Some(Ok(Null)) ==>
      r == Err(NullReadMessage("dependencies"))
    ensures r.Err? ==> found.Some? && manifest.Some? && (manifest.value.Err? || manifest.value.value == Null)
  {
    if found.None? || !Truthy(Defined(found.value)) || manifest.None? then Ok(Obj([]))
    else
      match manifest.value
      case Err(e) => Err(e)
      case Ok(decoded) =>
        match Get(decoded, "dependencies")
        case Err(e) => Err(e)
        case Ok(deps) =>
          var dev := Get(decoded, "devDependencies").value;
          Ok(Obj([("dependencies", OrElse(deps, Obj([]))), ("devDependencies", OrElse(dev, Obj([])))]))
  }

  /** A readable manifest gives an object with exactly the two keys, each
      the manifest's own value when truthy and `{}` otherwise. */
  lemma DependenciesDefaulting(found: Json, decoded: Json)
    requires found.Obj? && !decoded.Null?
    ensures var r := Dependencies(Some(found), Some(Ok(decoded)));
      r.Ok? && r.value.Obj? && Keys(r.value) == ["dependencies", "devDependencies"] &&
      (Truthy(Get(decoded, "dependencies").value) ==>
         Get(r.value, "dependencies") == Ok(Get(decoded, "dependencies").value)) &&
      (!Truthy(Get(decoded, "dependencies").value) ==> Get(r.value, "dependencies") == Ok(Defined(Obj([])))) &&
      (Truthy(Get(decoded, "devDependencies").value) ==>
         Get(r.value, "devDependencies") == Ok(Get(decoded, "devDependencies").value)) &&
      (!Truthy(Get(decoded, "devDependencies").value) ==> Get(r.value, "devDependencies") == Ok(Defined(Obj([]))))
  {
    var deps := OrElse(Get(decoded, "dependencies").value, Obj([]));
    var dev := OrElse(Get(decoded, "devDependencies").value, Obj([]));
    var members := [("dependencies", deps), ("devDependencies", dev)];
    assert "dependencies"[2] != "devDependencies"[2];
    assert members[1..] == [("devDependencies", dev)];
    assert Member(members, "devDependencies") == Member(members[1..], "devDependencies");
  }

  /** `analyzeRepository`, as far as it decides the outcome: the token, the
      URL, the tree request (`tree` is `None` when it is refused), the
      search for the manifest and its reading. */
  function RepositoryCheck(user: Option<string>, row: Option<string>, pathname: Result<string>,
                           tree: Option<seq<Json>>, manifest: Option<Result<Json>>): (r: Result<Json>)
    ensures GitHub.FetchToken(user, row).Err? ==> r == Err(GitHub.FetchToken(user, row).error)
    ensures GitHub.FetchToken(user, row).Ok? && GitHub.OwnerAndRepo(pathname).Err? ==>
      r == Err(GitHub.OwnerAndRepo(pathname).error)
    ensures GitHub.FetchToken(user, row).Ok? && GitHub.OwnerAndRepo(pathname).Ok? && tree.None? ==>
      r == Err("Failed to fetch repository contents")
    ensures GitHub.FetchToken(user, row).Ok? && GitHub.OwnerAndRepo(pathname).Ok? && tree.Some? ==>
      (FindManifest(tree.value).Err? ==> r == Err(NullReadMessage("path"))) &&
      (FindManifest(tree.value).Ok? ==> r == Dependencies(FindManifest(tree.value).value, manifest))
    ensures r.Ok? ==> tree.Some?
  {
    match GitHub.FetchToken(user, row)
    case Err(e) => Err(e)
    case Ok(_) =>
      match GitHub.OwnerAndRepo(pathname)
      case Err(e) => Err(e)
      case Ok(_) =>
        if tree.None? then Err("Failed to fetch repository contents")
        else
          match FindManifest(tree.value)
          case Err(e) => Err(e)
          case Ok(found) => Dependencies(found, manifest)
  }

  /** `repoData.files.map(f => f.path)`: the path of every tree entry, in
      order; reading `path` of a `null` entry throws. */
  function FilePaths(tree: seq<Json>): (r: Result<seq<Prop>>)
    ensures r.Err? <==> Null in tree
    ensures r.Err? ==> r.error == NullReadMessage("path")
    ensures r.Ok? ==> |r.value| == |tree| && forall k :: 0 <= k < |tree| ==> Get(tree[k], "path") == Ok(r.value[k])
  {
    if |tree| == 0 then Ok([])
    else
      match Get(tree[0], "path")
      case Err(e) => Err(e)
      case Ok(p) =>
        var rest := FilePaths(tree[1..]);
        assert tree == [tree[0]] + tree[1..];
        if rest.Err? then Err(rest.error)
        else
          assert forall k :: 1 <= k < |tree| ==> tree[k] == tree[1..][k - 1];
          Ok([p] + rest.value)
  }

  /** A tree without `null` entries and without a `package.json` entry
      sends `{}` as its dependencies, whatever the manifest request would
      have returned. */
  lemma NoManifestNoDependencies(user: Option<string>, row: Option<string>, pathname: Result<string>,
                                 tree: seq<Json>, manifest: Option<Result<Json>>)
    requires GitHub.FetchToken(user, row).Ok? && GitHub.OwnerAndRepo(pathname).Ok?
    requires forall k :: 0 <= k < |tree| ==> tree[k] != Null && !IsManifestEntry(tree[k])
    ensures RepositoryCheck(user, row, pathname, Some(tree), manifest) == Ok(Obj([]))
  {
    assert FindStop(tree) == |tree|;
  }

  /** The pipeline after the guard: the repository check, the file list
      the prompt carries, the reply and its parse. */
  function VisualizationResult(user: Option<string>, row: Option<string>, pathname: Result<string>,
                               tree: Option<seq<Json>>, manifest: Option<Result<Json>>,
                               reply: Result<string>, parse: string -> Result<Json>): (r: Result<Json>)
    ensures r.Ok? ==> reply.Ok? && ParseVisualization(reply.value, parse) == Validation.Accepted(r.value)
    ensures RepositoryCheck(user, row, pathname, tree, manifest).Err? ==>
      r == Err(RepositoryCheck(user, row, pathname, tree, manifest).error)
    ensures RepositoryCheck(user, row, pathname, tree, manifest).Ok? && Null in tree.value ==>
      r == Err(NullReadMessage("path"))
    ensures r.Ok? ==> tree.Some? && Null !in tree.value
  {
    match RepositoryCheck(user, row, pathname, tree, manifest)
    case Err(e) => Err(e)
    case Ok(_) =>
      if FilePaths(tree.value).Err? then Err(FilePaths(tree.value).error)
      else
        match reply
        case Err(e) => Err(e)
        case Ok(text) =>
          match ParseVisualization(text, parse)
          case Accepted(v) => Ok(v)
          case Rejected(m) => Err(m)
  }

  /** The steps of `generateVisualization` after the guard, each stopping
      at its first failure. */
  method RunVisualization(user: Option<string>, row: Option<string>, pathname: Result<string>,
                          tree: Option<seq<Json>>, manifest: Option<Result<Json>>,
                          reply: Result<string>, parse: string -> Result<Json>) returns (r: Result<Json>)
    ensures r == VisualizationResult(user, row, pathname, tree, manifest, reply, parse)
  {
    var checked := RepositoryCheck(user, row, pathname, tree, manifest);
    if checked.Err? {
      return Err(checked.error);
    }
    var paths := FilePaths(tree.value);
    if paths.Err? {
      return Err(paths.error);
    }
    if reply.Err? {
      return Err(reply.error);
    }
    var outcome := ParseVisualization(reply.value, parse);
    if outcome.Accepted? {
      r := Ok(outcome.value);
    } else {
      r := Err(outcome.message);
    }
  }

  class VisualizerPage {
    var repoUrl: string
    var loading: bool
    var error: string
    var visualization: Option<Json>
    var activeView: string

    constructor ()
      ensures repoUrl == "" && !loading && error == "" && visualization == None && activeView == "flow"
    {
      repoUrl := "";
      loading := false;
      error := "";
      visualization := None;
      activeView := "flow";
    }

    /** `generateVisualization`. A blank URL only sets an error and makes no
        request; otherwise the previous visualization is cleared first and
        the pipeline's outcome is stored. */
    method GenerateVisualization(user: Option<string>, row: Option<string>, pathname: Result<string>,
                                 tree: Option<seq<Json>>, manifest: Option<Result<Json>>,
                                 reply: Result<string>, parse: string -> Result<Json>) returns (requested: bool)
      modifies this
      ensures requested <==> Text.Trim(old(repoUrl)) != ""
      ensures repoUrl == old(repoUrl) && activeView == old(activeView)
      ensures !requested ==> error == BlankUrl && visualization == old(visualization) && loading == old(loading)
      ensures requested ==> !loading
      ensures requested ==>
        match VisualizationResult(user, row, pathname, tree, manifest, reply, parse)
        case Ok(v) => visualization == Some(v) && error == ""
        case Err(m) => visualization == None && error == m
    {
      if Text.Trim(repoUrl) == "" {
        error := BlankUrl;
        return false;
      }
      requested := true;
      var outcome := RunVisualization(user, row, pathname, tree, manifest, reply, parse);
      Show(outcome);
    }

    /** The state the page is left in once the pipeline has finished. */
    method Show(outcome: Result<Json>)
      modifies this
      ensures repoUrl == old(repoUrl) && activeView == old(activeView) && !loading
      ensures outcome.Ok? ==> visualization == Some(outcome.value) && error == ""
      ensures outcome.Err? ==> visualization == None && error == outcome.error
    {
      error := if outcome.Err? then outcome.error else "";
      visualization := if outcome.Ok? then Some(outcome.value) else None;
      loading := false;
    }

    /** The diagram the page renders, when there is a visualization. */
    function CurrentDiagram(): (d: Option<Prop>)
      reads this
      ensures d.Some? <==> visualization.Some?
      ensures d.Some? ==> d.value == Diagram(visualization.value, activeView)
    {
      if visualization.None? then None else Some(Diagram(visualization.value, activeView))
    }
  }
}
