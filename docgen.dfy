/** The documentation generator: the repository's file tree is flattened
    and its largest files picked, the model's documentation is rewritten
    as Markdown or laid out as a PDF, and the download is named after the
    repository. */
module DocGen {
  import opened Wrappers
  import opened Json
  import Text
  import GitHub

  // ----- Markdown export -----

  /** The separator between documentation sections. */
  const SectionBreak := "\n\n"

  /** One section as `processMarkdown` rewrites it: a section whose trimmed
      form starts with `*` loses its first `*`, is trimmed and becomes a
      level-two heading; every other section is kept as it is. */
  function Rewrite(section: string): string {
    if Text.StartsWith(Text.Trim(section), "*") then "## " + Text.Trim(Text.RemoveFirst(section, '*'))
    else section
  }

  function RewriteAll(sections: seq<string>): (r: seq<string>)
    ensures |r| == |sections|
    ensures forall k :: 0 <= k < |sections| ==> r[k] == Rewrite(sections[k])
  {
    if sections == [] then [] else [Rewrite(sections[0])] + RewriteAll(sections[1..])
  }

  /** `processMarkdown`: the content split into sections, each rewritten,
      joined back together. */
  function ProcessMarkdown(content: string): string {
    Text.Join(RewriteAll(Text.Split(content, SectionBreak)), SectionBreak)
  }

  /** A document none of whose sections starts, once trimmed, with `*` is
      exported unchanged. */
  lemma ProcessMarkdownUnchanged(content: string)
    requires forall k :: 0 <= k < |Text.Split(content, SectionBreak)| ==>
      !Text.StartsWith(Text.Trim(Text.Split(content, SectionBreak)[k]), "*")
    ensures ProcessMarkdown(content) == content
  {
    var sections := Text.Split(content, SectionBreak);
    assert RewriteAll(sections) == sections;
    Text.JoinSplit(content, SectionBreak);
  }

  /** The `*` a rewritten section loses is its first non-blank character:
      the heading is what follows that star, trimmed. */
  lemma {:induction false} RewriteStarred(section: string)
    requires Text.StartsWith(Text.Trim(section), "*")
    ensures var n := Text.LeadingSpaces(section);
      n < |section| && section[n] == '*' &&
      Rewrite(section) == "## " + Text.Trim(section[n + 1..])
  {
    var n := Text.LeadingSpaces(section);
    StarAfterSpaces(section);
    RemoveStar(section, n);
    RewriteOfStarred(section, Text.Trim(section[n + 1..]));
  }

  lemma RewriteOfStarred(section: string, h: string)
    requires Text.StartsWith(Text.Trim(section), "*")
    requires Text.Trim(Text.RemoveFirst(section, '*')) == h
    ensures Rewrite(section) == "## " + h
  {
  }

  /** The first non-blank character of such a section is the star. */
  lemma {:induction false} StarAfterSpaces(section: string)
    requires Text.StartsWith(Text.Trim(section), "*")
    ensures Text.LeadingSpaces(section) < |section| && section[Text.LeadingSpaces(section)] == '*'
  {
    var t := Text.Trim(section);
    var n := Text.LeadingSpaces(section);
    assert |t| >= 1 && t[..1] == "*";
    assert t[0] == '*' by { assert t[..1][0] == t[0]; }
    assert t == section[n..][..|t|];
    assert t[0] == section[n];
  }

  lemma RemoveStar(section: string, n: nat)
    requires n == Text.LeadingSpaces(section) && n < |section| && section[n] == '*'
    ensures Text.Trim(Text.RemoveFirst(section, '*')) == Text.Trim(section[n + 1..])
  {
    forall i | 0 <= i < n ensures Text.IsSpace(section[i]) {
      Text.LeadingSpacesAreSpaces(section, i);
    }
    Text.RemoveFirstAt(section, '*', n);
    assert Text.AllSpace(section[..n]);
    TrimAfterSpaces(section[..n], section[n + 1..]);
  }

  /** Leading whitespace does not change a trim. */
  lemma TrimAfterSpaces(w: string, u: string)
    requires Text.AllSpace(w)
    ensures Text.Trim(w + u) == Text.Trim(u)
  {
    var m := Text.LeadingSpaces(u);
    LeadingSpacesAfter(w, u);
    assert (w + u)[|w| + m..] == u[m..];
  }

  lemma {:induction false} LeadingSpacesAfter(w: string, u: string)
    requires Text.AllSpace(w)
    ensures Text.LeadingSpaces(w + u) == |w| + Text.LeadingSpaces(u)
    decreases |w|
  {
    if |w| > 0 {
      assert (w + u)[1..] == w[1..] + u;
      LeadingSpacesAfter(w[1..], u);
    } else {
      assert w + u == u;
    }
  }

  // ----- download names -----

  /** `url.split('/').pop() || 'documentation'`: the URL's last segment,
      or a fixed name when that segment is empty. */
  function RepoName(url: string): (r: string)
    ensures r != "" && '/' !in r
    ensures Text.LastPiece(url, '/') != "" ==> r == Text.LastPiece(url, '/') && Text.EndsWith(url, r)
    ensures Text.LastPiece(url, '/') == "" ==> r == "documentation"
  {
    var last := Text.LastPiece(url, '/');
    if last == "" then "documentation" else last
  }

  /** The date part of `toISOString()`: the text before the first `T`. */
  function DatePart(iso: string): (r: string)
    ensures 'T' !in r
    ensures Text.StartsWith(iso, r)
  {
    Text.SplitPiecesAvoidSeparator(iso, 'T');
    FirstPieceIsPrefix(iso, 'T');
    Text.Split(iso, "T")[0]
  }

  lemma {:induction false} FirstPieceIsPrefix(s: string, c: char)
    ensures Text.StartsWith(s, Text.Split(s, [c])[0])
    decreases |s|
  {
    if |s| >= 1 && s[..1] != [c] {
      FirstPieceIsPrefix(s[1..], c);
      assert s == [s[0]] + s[1..];
    }
  }

  /** For a timestamp `date + "T" + time` the date part is `date`. */
  lemma DatePartOfTimestamp(date: string, time: string)
    requires 'T' !in date
    ensures DatePart(date + "T" + time) == date
  {
    Text.SplitAfterPiece(date, 'T', time);
  }

  /** The PDF's file name. */
  function PdfFileName(url: string, iso: string): (r: string)
    ensures Text.StartsWith(r, RepoName(url) + "-documentation-")
    ensures Text.EndsWith(r, ".pdf")
    ensures |r| == |RepoName(url)| + 15 + |DatePart(iso)| + 4
  {
    RepoName(url) + "-documentation-" + DatePart(iso) + ".pdf"
  }

  // ----- PDF layout -----

  /** What a drawn line belongs to. */
  datatype Kind = Title | Heading | Bullet | Code | Plain

  /** The classification of a trimmed section, tested in this order:
      heading, bullet, code block, plain text. */
  function KindOf(trimmed: string): (k: Kind)
    ensures k != Title
  {
    if Text.StartsWith(trimmed, "**") && Text.EndsWith(trimmed, "**") then Heading
    else if Text.StartsWith(trimmed, "*") then Bullet
    else if Text.StartsWith(trimmed, "```") then Code
    else Plain
  }

  /** Each kind is chosen exactly when its test is the first that passes. */
  lemma KindOfCases(trimmed: string)
    ensures var k := KindOf(trimmed);
      (k == Heading <==> Text.StartsWith(trimmed, "**") && Text.EndsWith(trimmed, "**")) &&
      (k == Bullet <==>
        !(Text.StartsWith(trimmed, "**") && Text.EndsWith(trimmed, "**")) && Text.StartsWith(trimmed, "*")) &&
      (k == Code <==> !Text.StartsWith(trimmed, "*") && Text.StartsWith(trimmed, "```"))
  {
  }

  /** The bullet sign as the page's source text spells it: the UTF-8 bytes
      of U+2022 read as Windows-1252. */
  const BulletSign := "\U{00E2}\U{20AC}\U{00A2} "

  /** The text a section draws, by kind. */
  function SectionText(trimmed: string, k: Kind): string {
    match k
    case Heading => Text.RemoveAll(trimmed, "**")
    case Bullet => BulletSign + (if |trimmed| >= 1 then Text.Trim(trimmed[1..]) else "")
    case Code => Text.Trim(Text.RemoveAll(trimmed, "```"))
    case _ => trimmed
  }

  /** The wrap width and the left margin of each kind. */
  function Width(k: Kind): nat {
    if k == Code then 160 else 170
  }

  function Margin(k: Kind): int {
    match k
    case Bullet => 30
    case Code => 25
    case _ => 20
  }

  /** A drawn line: its kind, text and position. */
  datatype Draw = Draw(kind: Kind, text: string, x: int, y: int)

  const PageTop := 20
  const PageBottom := 280
  const LineHeight := 7
  const SectionGap := 5

  /** Lines drawn from cursor `y`: before each line the cursor returns to
      the top of a new page when it is past the bottom, and each line moves
      it down by one line height. */
  function LinesFrom(lines: seq<string>, k: Kind, x: int, y: int): (r: (seq<Draw>, int))
    ensures |r.0| == |lines|
    decreases |lines|
  {
    if lines == [] then ([], y)
    else
      var at := if y > PageBottom then PageTop else y;
      var rest := LinesFrom(lines[1..], k, x, at + LineHeight);
      ([Draw(k, lines[0], x, at)] + rest.0, rest.1)
  }

  /** From a cursor at or below the top, every line is drawn on the page,
      between its top and its bottom, with its own text, kind and margin. */
  lemma {:induction false} LinesOnPage(lines: seq<string>, k: Kind, x: int, y: int)
    requires y >= PageTop
    ensures var r := LinesFrom(lines, k, x, y);
      r.1 >= PageTop &&
      forall i :: 0 <= i < |lines| ==>
        r.0[i].kind == k && r.0[i].text == lines[i] && r.0[i].x == x && PageTop <= r.0[i].y <= PageBottom
    decreases |lines|
  {
    if lines != [] {
      var at := if y > PageBottom then PageTop else y;
      LinesOnPage(lines[1..], k, x, at + LineHeight);
      var r := LinesFrom(lines, k, x, y);
      var rest := LinesFrom(lines[1..], k, x, at + LineHeight);
      forall i | 1 <= i < |lines|
        ensures r.0[i].kind == k && r.0[i].text == lines[i] && r.0[i].x == x && PageTop <= r.0[i].y <= PageBottom
      {
        assert r.0[i] == rest.0[i - 1];
        assert lines[i] == lines[1..][i - 1];
      }
    }
  }

  /** One section drawn from cursor `y`; `wrap` stands for
      `splitTextToSize`. A heading is drawn where the cursor is, with no
      page check. */
  function SectionFrom(section: string, y: int, wrap: (string, nat) -> seq<string>): (seq<Draw>, int)
  {
    var t := Text.Trim(section);
    var k := KindOf(t);
    TextFrom(SectionText(t, k), k, y, wrap)
  }

  /** A section's text drawn from cursor `y` in its kind. */
  function TextFrom(text: string, k: Kind, y: int, wrap: (string, nat) -> seq<string>): (seq<Draw>, int)
  {
    if k == Heading then ([Draw(Heading, text, 20, y)], y + 10 + SectionGap)
    else
      var drawn := LinesFrom(wrap(text, Width(k)), k, Margin(k), y);
      (drawn.0, drawn.1 + (if k == Code then SectionGap else 0) + SectionGap)
  }

  /** A heading is one line at the cursor, moving it down by 15; any other
      section's lines are all on the page, in the section's kind and margin,
      and leave the cursor at or below the top. */
  lemma SectionOnPage(section: string, y: int, wrap: (string, nat) -> seq<string>)
    requires y >= PageTop
    ensures var t := Text.Trim(section); var k := KindOf(t); var r := SectionFrom(section, y, wrap);
      r.1 >= PageTop &&
      (k == Heading ==> r == ([Draw(Heading, SectionText(t, k), 20, y)], y + 15)) &&
      (k != Heading ==> forall i :: 0 <= i < |r.0| ==>
        r.0[i].kind == k && r.0[i].x == Margin(k) && PageTop <= r.0[i].y <= PageBottom)
  {
    var t := Text.Trim(section);
    var k := KindOf(t);
    if k != Heading {
      LinesOnPage(wrap(SectionText(t, k), Width(k)), k, Margin(k), y);
    }
  }

  /** The sections drawn one after another. */
  function SectionsFrom(sections: seq<string>, y: int, wrap: (string, nat) -> seq<string>): (seq<Draw>, int)
    decreases |sections|
  {
    if sections == [] then ([], y)
    else
      var first := SectionFrom(sections[0], y, wrap);
      var rest := SectionsFrom(sections[1..], first.1, wrap);
      (first.0 + rest.0, rest.1)
  }

  /** Every line of the sections other than a heading is on the page. */
  lemma {:induction false} SectionsOnPage(sections: seq<string>, y: int, wrap: (string, nat) -> seq<string>)
    requires y >= PageTop
    ensures var r := SectionsFrom(sections, y, wrap);
      r.1 >= PageTop &&
      forall i :: 0 <= i < |r.0| ==>
        r.0[i].kind != Title && (r.0[i].kind != Heading ==> PageTop <= r.0[i].y <= PageBottom)
    decreases |sections|
  {
    if sections != [] {
      var first := SectionFrom(sections[0], y, wrap);
      SectionOnPage(sections[0], y, wrap);
      SectionsOnPage(sections[1..], first.1, wrap);
      var rest := SectionsFrom(sections[1..], first.1, wrap);
      var r := SectionsFrom(sections, y, wrap);
      forall i | |first.0| <= i < |r.0|
        ensures r.0[i].kind != Title && (r.0[i].kind != Heading ==> PageTop <= r.0[i].y <= PageBottom)
      {
        assert r.0[i] == rest.0[i - |first.0|];
      }
    }
  }

  /** The section cursor starts below the title (after 10) and the date
      line (after 20). */
  const FirstSectionY := 20 + 10 + 20

  /** The whole page layout: the title and date lines, then the sections. */
  function Layout(content: string, repoName: string, stamp: string,
                  wrap: (string, nat) -> seq<string>): (r: seq<Draw>)
    ensures |r| >= 2
    ensures r[0] == Draw(Title, repoName + " Documentation", 20, 20)
    ensures r[1] == Draw(Title, "Generated on " + stamp, 20, 30)
  {
    var body := SectionsFrom(Text.Split(content, SectionBreak), FirstSectionY, wrap).0;
    [Draw(Title, repoName + " Documentation", 20, 20), Draw(Title, "Generated on " + stamp, 20, 30)] + body
  }

  /** Only the two header lines are titles, and every line that is not a
      heading is drawn between the top and the bottom of a page. */
  lemma LayoutOnPage(content: string, repoName: string, stamp: string, wrap: (string, nat) -> seq<string>)
    ensures var r := Layout(content, repoName, stamp, wrap);
      (forall i :: 2 <= i < |r| ==> r[i].kind != Title) &&
      (forall i :: 0 <= i < |r| && r[i].kind != Heading ==> PageTop <= r[i].y <= PageBottom)
  {
    var sections := Text.Split(content, SectionBreak);
    SectionsOnPage(sections, FirstSectionY, wrap);
    var r := Layout(content, repoName, stamp, wrap);
    var body := SectionsFrom(sections, FirstSectionY, wrap).0;
    forall i | 2 <= i < |r| ensures r[i] == body[i - 2] {
    }
  }

  /** `generatePDF`'s drawing loop: the cursor `y` is a variable updated
      line by line, and the lines drawn are those of `Layout`. */
  method GeneratePdf(content: string, repoName: string, stamp: string,
                     wrap: (string, nat) -> seq<string>) returns (draws: seq<Draw>)
    ensures draws == Layout(content, repoName, stamp, wrap)
  {
    var y := 20;
    draws := [Draw(Title, repoName + " Documentation", 20, y)];
    y := y + 10;
    draws := draws + [Draw(Title, "Generated on " + stamp, 20, y)];
    y := y + 20;
    var sections := Text.Split(content, SectionBreak);
    ghost var total := Layout(content, repoName, stamp, wrap);
    LayoutHeader(content, repoName, stamp, wrap, draws);
    var i := 0;
    while i < |sections|
      invariant 0 <= i <= |sections|
      invariant SectionsLeft(sections, i, draws, y, wrap, total)
    {
      SectionsAdvance(sections, i, draws, y, wrap, total);
      var drawn, next := DrawSection(sections[i], y, wrap);
      draws := draws + drawn;
      y := next;
      i := i + 1;
    }
    assert sections[i..] == [];
    assert draws + [] == draws;
  }

  /** The drawing loop's invariant: what is drawn, followed by the drawing
      of the sections still to come, is the whole layout. */
  predicate SectionsLeft(sections: seq<string>, i: nat, draws: seq<Draw>, y: int,
                         wrap: (string, nat) -> seq<string>, total: seq<Draw>)
    requires i <= |sections|
  {
    draws + SectionsFrom(sections[i..], y, wrap).0 == total
  }

  /** The two header lines start the layout. */
  lemma LayoutHeader(content: string, repoName: string, stamp: string,
                     wrap: (string, nat) -> seq<string>, draws: seq<Draw>)
    requires draws == [Draw(Title, repoName + " Documentation", 20, 20)] + [Draw(Title, "Generated on " + stamp, 20, 30)]
    ensures var sections := Text.Split(content, SectionBreak);
      SectionsLeft(sections, 0, draws, FirstSectionY, wrap, Layout(content, repoName, stamp, wrap))
  {
    var sections := Text.Split(content, SectionBreak);
    assert sections[0..] == sections;
  }

  /** The invariant carried over one section. */
  lemma SectionsAdvance(sections: seq<string>, i: nat, draws: seq<Draw>, y: int,
                        wrap: (string, nat) -> seq<string>, total: seq<Draw>)
    requires i < |sections| && SectionsLeft(sections, i, draws, y, wrap, total)
    ensures var first := SectionFrom(sections[i], y, wrap);
      SectionsLeft(sections, i + 1, draws + first.0, first.1, wrap, total)
  {
    var first := SectionFrom(sections[i], y, wrap);
    var rest := SectionsFrom(sections[i + 1..], first.1, wrap).0;
    assert sections[i..][1..] == sections[i + 1..];
    assert SectionsFrom(sections[i..], y, wrap).0 == first.0 + rest;
    assert draws + (first.0 + rest) == (draws + first.0) + rest;
  }

  /** One section of the loop. */
  method DrawSection(section: string, y0: int, wrap: (string, nat) -> seq<string>)
    returns (drawn: seq<Draw>, y: int)
    ensures (drawn, y) == SectionFrom(section, y0, wrap)
  {
    var trimmed := Text.Trim(section);
    var k := KindOf(trimmed);
    var text := SectionText(trimmed, k);
    drawn, y := DrawText(text, k, y0, wrap);
  }

  /** A section's text drawn in its kind: a heading at the cursor, any
      other kind line by line, a code block with an extra gap after it. */
  method DrawText(text: string, k: Kind, y0: int, wrap: (string, nat) -> seq<string>)
    returns (drawn: seq<Draw>, y: int)
    ensures (drawn, y) == TextFrom(text, k, y0, wrap)
  {
    y := y0;
    if k == Heading {
      drawn := [Draw(Heading, text, 20, y)];
      y := y + 10;
    } else {
      drawn, y := DrawLines(wrap(text, Width(k)), k, Margin(k), y);
      if k == Code {
        y := y + SectionGap;
      }
    }
    y := y + SectionGap;
  }

  /** The per-line loop: the page check, the line, the line height. */
  method DrawLines(lines: seq<string>, k: Kind, x: int, y0: int) returns (drawn: seq<Draw>, y: int)
    ensures (drawn, y) == LinesFrom(lines, k, x, y0)
  {
    ghost var total := LinesFrom(lines, k, x, y0);
    drawn := [];
    y := y0;
    var j := 0;
    assert lines[j..] == lines;
    while j < |lines|
      invariant 0 <= j <= |lines|
      invariant LinesLeft(lines, j, k, x, drawn, y, total)
    {
      LinesAdvance(lines, j, k, x, drawn, y, total);
      if y > PageBottom {
        y := PageTop;
      }
      drawn := drawn + [Draw(k, lines[j], x, y)];
      y := y + LineHeight;
      j := j + 1;
    }
    LinesDone(lines, k, x, drawn, y, total);
  }

  /** The loop invariant: what is drawn so far, followed by the drawing of
      the lines still to come, is the drawing of all of them. */
  predicate LinesLeft(lines: seq<string>, j: nat, k: Kind, x: int, drawn: seq<Draw>, y: int, total: (seq<Draw>, int))
    requires j <= |lines|
  {
    var rest := LinesFrom(lines[j..], k, x, y);
    drawn + rest.0 == total.0 && rest.1 == total.1
  }

  /** The loop invariant carried over one line. */
  lemma LinesAdvance(lines: seq<string>, j: nat, k: Kind, x: int, drawn: seq<Draw>, y: int, total: (seq<Draw>, int))
    requires j < |lines|
    requires LinesLeft(lines, j, k, x, drawn, y, total)
    ensures var at := if y > PageBottom then PageTop else y;
      LinesLeft(lines, j + 1, k, x, drawn + [Draw(k, lines[j], x, at)], at + LineHeight, total)
  {
    var at := if y > PageBottom then PageTop else y;
    var rest := LinesFrom(lines[j + 1..], k, x, at + LineHeight).0;
    LinesStep(lines, j, k, x, y);
    assert drawn + ([Draw(k, lines[j], x, at)] + rest) == (drawn + [Draw(k, lines[j], x, at)]) + rest;
  }

  /** With every line drawn, the invariant gives the result. */
  lemma LinesDone(lines: seq<string>, k: Kind, x: int, drawn: seq<Draw>, y: int, total: (seq<Draw>, int))
    requires LinesLeft(lines, |lines|, k, x, drawn, y, total)
    ensures (drawn, y) == total
  {
    assert lines[|lines|..] == [];
    assert drawn + [] == drawn;
  }

  lemma LinesStep(lines: seq<string>, j: nat, k: Kind, x: int, y: int)
    requires j < |lines|
    ensures var at := if y > PageBottom then PageTop else y;
      var rest := LinesFrom(lines[j + 1..], k, x, at + LineHeight);
      LinesFrom(lines[j..], k, x, y) == ([Draw(k, lines[j], x, at)] + rest.0, rest.1)
  {
    assert lines[j..][1..] == lines[j + 1..];
  }

  // ----- the repository tree -----

  /** An entry of a contents listing: a file, a directory with its own
      listing, or anything else (a symbolic link, a submodule). */
  datatype Node = File(name: string, path: string, size: int) | Dir(path: string, listing: Listing) | Other(path: string)

  /** The answer to a contents request: refused with a status text, or the
      listed entries (a single object stands for a one-entry list). */
  datatype Listing = Failed(statusText: string) | Listed(items: seq<Node>)

  /** A file record as `fetchRepoContents` collects it. */
  datatype Entry = Entry(name: string, path: string, kind: string, size: int)

  const FetchFailure := "Failed to fetch repository content: "

  /** The file records of a listing in depth-first order, each directory's
      files in its place; the first refused request, in that order, is the
      error. */
  function FlattenItems(items: seq<Node>): (r: Result<seq<Entry>>)
    ensures r.Ok? ==> forall i :: 0 <= i < |r.value| ==> r.value[i].kind == "file"
    decreases items
  {
    if items == [] then Ok([])
    else
      var here: Result<seq<Entry>> :=
        match items[0]
        case File(name, path, size) => Ok([Entry(name, path, "file", size)])
        case Other(_) => Ok([])
        case Dir(_, Failed(st)) => Err(FetchFailure + st)
        case Dir(_, Listed(sub)) => FlattenItems(sub);
      match here
      case Err(e) => Err(e)
      case Ok(xs) =>
        match FlattenItems(items[1..])
        case Err(e) => Err(e)
        case Ok(ys) => Ok(xs + ys)
  }

  function Flatten(listing: Listing): (r: Result<seq<Entry>>)
  {
    match listing
    case Failed(st) => Err(FetchFailure + st)
    case Listed(items) => FlattenItems(items)
  }

  /** Two results in sequence: the first error, or both values joined. */
  function Then(a: Result<seq<Entry>>, b: Result<seq<Entry>>): Result<seq<Entry>> {
    match a
    case Err(e) => Err(e)
    case Ok(xs) =>
      match b
      case Err(e) => Err(e)
      case Ok(ys) => Ok(xs + ys)
  }

  /** The records of one entry of a listing. */
  function NodeEntries(n: Node): Result<seq<Entry>> {
    match n
    case File(name, path, size) => Ok([Entry(name, path, "file", size)])
    case Other(_) => Ok([])
    case Dir(_, Failed(st)) => Err(FetchFailure + st)
    case Dir(_, Listed(sub)) => FlattenItems(sub)
  }

  /** Flattening two runs of entries is flattening each, in order: every
      directory's files stand where the directory stood. */
  lemma {:induction false} FlattenSplice(a: seq<Node>, b: seq<Node>)
    ensures FlattenItems(a + b) == Then(FlattenItems(a), FlattenItems(b))
    decreases |a|
  {
    if a == [] {
      assert a + b == b;
      match FlattenItems(b)
      case Ok(ys) => assert [] + ys == ys;
      case Err(_) =>
    } else {
      assert (a + b)[0] == a[0];
      assert (a + b)[1..] == a[1..] + b;
      FlattenSplice(a[1..], b);
      match NodeEntries(a[0])
      case Err(_) =>
      case Ok(xs) =>
        match FlattenItems(a[1..])
        case Err(_) =>
        case Ok(ys) =>
          match FlattenItems(b)
          case Err(_) =>
          case Ok(zs) => assert xs + (ys + zs) == (xs + ys) + zs;
    }
  }

  /** A listing of plain files flattens to their records, in order. */
  lemma {:induction false} FlattenPlainFiles(items: seq<Node>)
    requires forall i :: 0 <= i < |items| ==> items[i].File?
    ensures FlattenItems(items).Ok?
    ensures |FlattenItems(items).value| == |items|
    ensures forall i :: 0 <= i < |items| ==>
      FlattenItems(items).value[i] == Entry(items[i].name, items[i].path, "file", items[i].size)
    decreases |items|
  {
    if items != [] {
      FlattenPlainFiles(items[1..]);
      var rest := FlattenItems(items[1..]).value;
      var r := FlattenItems(items).value;
      forall i | 1 <= i < |items|
        ensures r[i] == Entry(items[i].name, items[i].path, "file", items[i].size)
      {
        assert r[i] == rest[i - 1];
        assert items[i] == items[1..][i - 1];
      }
    }
  }

  /** `fetchRepoContents`: the loop over a listing, descending into each
      directory with a request of its own. */
  method FetchRepoContents(listing: Listing) returns (r: Result<seq<Entry>>)
    ensures r == Flatten(listing)
    decreases listing
  {
    if listing.Failed? {
      return Err(FetchFailure + listing.statusText);
    }
    var items := listing.items;
    var all: seq<Entry> := [];
    var i := 0;
    ThenEmpty(FlattenItems(items));
    assert items[0..] == items;
    while i < |items|
      invariant 0 <= i <= |items|
      invariant Then(Ok(all), FlattenItems(items[i..])) == FlattenItems(items)
    {
      assert items[i..][0] == items[i] && items[i..][1..] == items[i + 1..];
      assert FlattenItems(items[i..]) == Then(NodeEntries(items[i]), FlattenItems(items[i + 1..]));
      var item := items[i];
      var here: seq<Entry>;
      if item.File? {
        here := [Entry(item.name, item.path, "file", item.size)];
      } else if item.Dir? {
        var sub := FetchRepoContents(item.listing);
        if sub.Err? {
          ThenErr(all, FlattenItems(items[i..]), sub.error);
          return sub;
        }
        here := sub.value;
      } else {
        here := [];
      }
      ThenStep(all, here, FlattenItems(items[i + 1..]));
      all := all + here;
      i := i + 1;
    }
    assert items[i..] == [];
    assert all + [] == all;
    r := Ok(all);
  }

  lemma ThenEmpty(rest: Result<seq<Entry>>)
    ensures Then(Ok([]), rest) == rest
  {
    match rest
    case Err(_) =>
    case Ok(ys) => assert [] + ys == ys;
  }

  lemma ThenErr(all: seq<Entry>, rest: Result<seq<Entry>>, e: string)
    requires rest == Err(e)
    ensures Then(Ok(all), rest) == Err(e)
  {
  }

  lemma ThenStep(all: seq<Entry>, here: seq<Entry>, rest: Result<seq<Entry>>)
    ensures Then(Ok(all), Then(Ok(here), rest)) == Then(Ok(all + here), rest)
  {
    match rest
    case Err(_) =>
    case Ok(ys) => assert all + (here + ys) == (all + here) + ys;
  }

  // ----- the largest files -----

  /** How many of the largest files the analysis keeps. */
  const LargestCount := 5

  function FilesOnly(xs: seq<Entry>): (r: seq<Entry>)
    ensures forall i :: 0 <= i < |r| ==> r[i].kind == "file"
    ensures multiset(r) <= multiset(xs)
    ensures forall e :: e in xs && e.kind == "file" ==> e in r
  {
    if xs == [] then []
    else
      var rest := FilesOnly(xs[1..]);
      assert xs == [xs[0]] + xs[1..];
      if xs[0].kind == "file" then [xs[0]] + rest else rest
  }

  predicate LargestFirst(s: seq<Entry>) {
    forall i, j :: 0 <= i < j < |s| ==> s[i].size >= s[j].size
  }

  /** The comparator `b.size - a.size` in a stable sort: `e` goes before
      the first entry that is not larger than it. */
  function Insert(e: Entry, s: seq<Entry>): (r: seq<Entry>)
    ensures multiset(r) == multiset(s) + multiset{e}
    ensures |r| == |s| + 1
  {
    if s == [] then [e]
    else if e.size >= s[0].size then [e] + s
    else
      assert s == [s[0]] + s[1..];
      [s[0]] + Insert(e, s[1..])
  }

  lemma {:induction false} InsertSorted(e: Entry, s: seq<Entry>)
    requires LargestFirst(s)
    ensures LargestFirst(Insert(e, s))
    decreases |s|
  {
    if s != [] && e.size < s[0].size {
      var rest := Insert(e, s[1..]);
      InsertSorted(e, s[1..]);
      InsertBelow(e, s);
      ConsSorted(s[0], rest);
      assert Insert(e, s) == [s[0]] + rest;
    }
  }

  /** Inserting a smaller entry behind the head keeps the head at least as
      large as anything after it. */
  lemma InsertBelow(e: Entry, s: seq<Entry>)
    requires LargestFirst(s) && s != [] && e.size < s[0].size
    ensures forall j :: 0 <= j < |Insert(e, s[1..])| ==> s[0].size >= Insert(e, s[1..])[j].size
  {
    var rest := Insert(e, s[1..]);
    forall j | 0 <= j < |rest| ensures s[0].size >= rest[j].size {
      assert rest[j] in multiset(rest);
      if rest[j] != e {
        assert rest[j] in multiset(s[1..]);
        var k :| 0 <= k < |s[1..]| && s[1..][k] == rest[j];
        assert s[k + 1] == rest[j];
      }
    }
  }

  /** An entry at least as large as every entry of a sorted list can lead it. */
  lemma ConsSorted(x: Entry, rest: seq<Entry>)
    requires LargestFirst(rest)
    requires forall j :: 0 <= j < |rest| ==> x.size >= rest[j].size
    ensures LargestFirst([x] + rest)
  {
    var r := [x] + rest;
    forall i, j | 0 <= i < j < |r| ensures r[i].size >= r[j].size {
      assert r[j] == rest[j - 1];
      if i > 0 { assert r[i] == rest[i - 1]; }
    }
  }

  /** The files from largest to smallest; of equal sizes, the earlier
      first. */
  function SortBySize(s: seq<Entry>): (r: seq<Entry>)
    ensures multiset(r) == multiset(s)
  {
    if s == [] then []
    else
      assert s == [s[0]] + s[1..];
      Insert(s[0], SortBySize(s[1..]))
  }

  /** The sort's result is a permutation ordered largest first. */
  lemma {:induction false} SortBySizeSorted(s: seq<Entry>)
    ensures LargestFirst(SortBySize(s))
    decreases |s|
  {
    if s != [] {
      SortBySizeSorted(s[1..]);
      InsertSorted(s[0], SortBySize(s[1..]));
    }
  }

  /** `contents.filter(...).sort(...).slice(0, 5)`. */
  function LargestFiles(contents: seq<Entry>): (r: seq<Entry>)
    ensures |r| <= LargestCount
  {
    var sorted := SortBySize(FilesOnly(contents));
    if |sorted| <= LargestCount then sorted else sorted[..LargestCount]
  }

  /** The sort keeps the number of entries. */
  lemma SortedLength(s: seq<Entry>)
    ensures |SortBySize(s)| == |s|
  {
    assert |multiset(SortBySize(s))| == |multiset(s)|;
  }

  /** The chosen entries are the first ones of the sorted files. */
  lemma ChosenPrefix(contents: seq<Entry>)
    ensures var sorted := SortBySize(FilesOnly(contents)); var r := LargestFiles(contents);
      |r| <= |sorted| && r == sorted[..|r|]
  {
  }

  /** Every chosen entry is a file entry of the tree. */
  lemma ChosenFromTree(contents: seq<Entry>)
    ensures var r := LargestFiles(contents);
      forall i :: 0 <= i < |r| ==> r[i].kind == "file" && r[i] in contents
  {
    var files := FilesOnly(contents);
    var sorted := SortBySize(files);
    var r := LargestFiles(contents);
    ChosenPrefix(contents);
    forall i | 0 <= i < |r| ensures r[i].kind == "file" && r[i] in contents {
      assert r[i] == sorted[i];
      assert r[i] in multiset(sorted);
      assert r[i] in multiset(files);
      var k :| 0 <= k < |files| && files[k] == r[i];
      assert r[i] in multiset(contents);
    }
  }

  /** The chosen entries are drawn from the tree's files. */
  lemma ChosenSubMultiset(contents: seq<Entry>)
    ensures multiset(LargestFiles(contents)) <= multiset(FilesOnly(contents))
  {
    var sorted := SortBySize(FilesOnly(contents));
    var r := LargestFiles(contents);
    ChosenPrefix(contents);
    assert sorted == r + sorted[|r|..];
  }

  /** No file left out is larger than the smallest one chosen. */
  lemma LeftOutNoLarger(contents: seq<Entry>)
    ensures var r := LargestFiles(contents);
      forall e :: e in contents && e.kind == "file" && e !in r && r != [] ==> e.size <= r[|r| - 1].size
  {
    var files := FilesOnly(contents);
    var sorted := SortBySize(files);
    SortBySizeSorted(files);
    var r := LargestFiles(contents);
    ChosenPrefix(contents);
    forall e | e in contents && e.kind == "file" && e !in r && r != []
      ensures e.size <= r[|r| - 1].size
    {
      assert e in multiset(files);
      assert e in multiset(sorted);
      var k :| 0 <= k < |sorted| && sorted[k] == e;
      assert k >= |r|;
      assert r[|r| - 1] == sorted[|r| - 1];
    }
  }

  /** The chosen files are at most five file entries of the tree, largest
      first; fewer than five only when the tree has fewer files, and then
      all of them; and no file left out is larger than the smallest one
      chosen. */
  lemma {:induction false} LargestFilesChosen(contents: seq<Entry>)
    ensures var r := LargestFiles(contents);
      (forall i :: 0 <= i < |r| ==> r[i].kind == "file" && r[i] in contents) &&
      LargestFirst(r) &&
      (|FilesOnly(contents)| >= LargestCount ==> |r| == LargestCount) &&
      (|FilesOnly(contents)| < LargestCount ==> multiset(r) == multiset(FilesOnly(contents))) &&
      multiset(r) <= multiset(FilesOnly(contents)) &&
      (forall e :: e in contents && e.kind == "file" && e !in r && r != [] ==> e.size <= r[|r| - 1].size)
  {
    var files := FilesOnly(contents);
    var sorted := SortBySize(files);
    SortBySizeSorted(files);
    SortedLength(files);
    ChosenPrefix(contents);
    ChosenFromTree(contents);
    ChosenSubMultiset(contents);
    LeftOutNoLarger(contents);
    var r := LargestFiles(contents);
    forall i, j | 0 <= i < j < |r| ensures r[i].size >= r[j].size {
      assert r[i] == sorted[i] && r[j] == sorted[j];
    }
  }

  // ----- dependencies and the analysis -----

  /** The manifest's dependency entries, production and development. */
  datatype Deps = Deps(production: seq<(string, Json)>, development: seq<(string, Json)>)

  /** The dependency analysis; `manifest` is `None` when the request fails
      or is not OK, and otherwise the decoded and parsed manifest, or the
      parse error, which aborts the analysis. */
  function Dependencies(manifest: Option<Result<Json>>): (r: Result<Deps>)
    ensures manifest.None? ==> r == Ok(Deps([], []))
    ensures manifest.Some? && manifest.value.Err? ==> r == Err(manifest.value.error)
    ensures manifest.Some? && manifest.value.Ok? ==> (r.Err? <==> manifest.value.value.Null?)
  {
    match manifest
    case None => Ok(Deps([], []))
    case Some(Err(e)) => Err(e)
    case Some(Ok(pkg)) =>
      match Get(pkg, "dependencies")
      case Err(e) => Err(e)
      case Ok(deps) =>
        var dev := Get(pkg, "devDependencies").value;
        Ok(Deps(Entries(OrElse(deps, Obj([]))), Entries(OrElse(dev, Obj([])))))
  }

  /** For an object manifest, a missing or falsy dependency field gives no
      entries, and an object field gives its members in order. */
  lemma DependenciesDefaulting(pkg: Json)
    requires pkg.Obj?
    ensures var r := Dependencies(Some(Ok(pkg)));
      var deps := Get(pkg, "dependencies").value;
      var dev := Get(pkg, "devDependencies").value;
      r.Ok? &&
      (!Truthy(deps) ==> r.value.production == []) &&
      (!Truthy(dev) ==> r.value.development == []) &&
      (deps.Defined? && deps.v.Obj? ==> r.value.production == deps.v.members) &&
      (dev.Defined? && dev.v.Obj? ==> r.value.development == dev.v.members)
  {
  }

  /** What `analyzeRepository` returns that the model follows. */
  datatype Analytics = Analytics(largestFiles: seq<Entry>, fileTree: seq<Entry>, dependencies: Deps)

  /** `analyzeRepository`: the tree is fetched first, then the manifest. */
  function Analysis(listing: Listing, manifest: Option<Result<Json>>): (r: Result<Analytics>)
    ensures Flatten(listing).Err? ==> r == Err(Flatten(listing).error)
    ensures Flatten(listing).Ok? && Dependencies(manifest).Err? ==> r == Err(Dependencies(manifest).error)
    ensures r.Ok? ==>
      r.value.fileTree == Flatten(listing).value &&
      r.value.largestFiles == LargestFiles(r.value.fileTree) &&
      r.value.dependencies == Dependencies(manifest).value
  {
    match Flatten(listing)
    case Err(e) => Err(e)
    case Ok(tree) =>
      match Dependencies(manifest)
      case Err(e) => Err(e)
      case Ok(deps) => Ok(Analytics(LargestFiles(tree), tree, deps))
  }

  const SaveFailure := "Failed to save documentation"

  /** The page's state. */
  class DocPage {
    var repoUrl: string
    var loading: bool
    var error: string
    var documentation: string
    var analytics: Option<Analytics>

    constructor ()
      ensures repoUrl == "" && !loading && error == "" && documentation == "" && analytics == None
    {
      repoUrl := "";
      loading := false;
      error := "";
      documentation := "";
      analytics := None;
    }

    /** `generateDocumentation`: no input guard; the token, the URL's owner
        and name, the analysis (kept as soon as it is done), the model's
        text (shown as soon as it arrives) and the history insert
        (`saved`), each failure setting its own error. */
    method GenerateDocumentation(user: Option<string>, row: Option<string>, pathname: Result<string>,
                                 listing: Listing, manifest: Option<Result<Json>>,
                                 reply: Result<string>, saved: bool)
      modifies this
      ensures repoUrl == old(repoUrl) && !loading
      ensures GitHub.FetchToken(user, row).Err? ==>
        error == GitHub.FetchToken(user, row).error && analytics == None && documentation == ""
      ensures GitHub.FetchToken(user, row).Ok? && GitHub.OwnerAndRepo(pathname).Err? ==>
        error == GitHub.OwnerAndRepo(pathname).error && analytics == None && documentation == ""
      ensures GitHub.FetchToken(user, row).Ok? && GitHub.OwnerAndRepo(pathname).Ok? ==>
        match Analysis(listing, manifest)
        case Err(e) => error == e && analytics == None && documentation == ""
        case Ok(a) =>
          analytics == Some(a) &&
          match reply
          case Err(e) => error == e && documentation == ""
          case Ok(text) => documentation == text && error == (if saved then "" else SaveFailure)
    {
      loading := true;
      error := "";
      documentation := "";
      analytics := None;
      var token := GitHub.FetchToken(user, row);
      var names := GitHub.OwnerAndRepo(pathname);
      if token.Err? {
        error := token.error;
      } else if names.Err? {
        error := names.error;
      } else {
        var tree := FetchRepoContents(listing);
        if tree.Err? {
          error := tree.error;
        } else {
          var deps := Dependencies(manifest);
          if deps.Err? {
            error := deps.error;
          } else {
            analytics := Some(Analytics(LargestFiles(tree.value), tree.value, deps.value));
            if reply.Err? {
              error := reply.error;
            } else {
              documentation := reply.value;
              if !saved {
                error := SaveFailure;
              }
            }
          }
        }
      }
      loading := false;
    }
  }
}
