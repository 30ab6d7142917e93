/** The repository chatbot: a repository is analysed into a context, the
    conversation is a log of user and assistant messages, and the last ten
    conversations are kept in a history keyed by repository URL. */
module Chatbot {
  import opened Wrappers
  import Text
  import GitHub

  /** How many conversations the history keeps. */
  const HistoryLimit := 10

  /** How many recent commits the context keeps. */
  const CommitLimit := 5

  const BlankUrl := "Please enter a repository URL"

  datatype Role = User | Assistant

  function RoleName(r: Role): string {
    match r
    case User => "user"
    case Assistant => "assistant"
  }

  datatype Message = Message(role: Role, content: string)

  /** A saved conversation; `timestamp` is the clock reading when it was
      saved. */
  datatype Conversation = Conversation(repoUrl: string, messages: seq<Message>, timestamp: int)

  datatype Commit = Commit(message: string, date: string)

  /** What the page keeps about the analysed repository; `languages` are
      the keys of the languages response. */
  datatype RepoContext = RepoContext(name: string, description: string, languages: seq<string>,
                                     lastCommits: seq<Commit>)

  // ----- the history -----

  /** `findIndex` on the repository URL: the first index holding `url`, or
      -1 when there is none. */
  function IndexOfUrl(h: seq<Conversation>, url: string): (k: int)
    ensures -1 <= k < |h|
    ensures k == -1 <==> forall i :: 0 <= i < |h| ==> h[i].repoUrl != url
    ensures k >= 0 ==> h[k].repoUrl == url && forall i :: 0 <= i < k ==> h[i].repoUrl != url
  {
    if |h| == 0 then -1
    else if h[0].repoUrl == url then 0
    else
      var k := IndexOfUrl(h[1..], url);
      if k == -1 then -1 else k + 1
  }

  /** The first `n` elements, or all of them when there are fewer. */
  function Take<T>(s: seq<T>, n: nat): (r: seq<T>)
    ensures |r| == if |s| <= n then |s| else n
    ensures forall i :: 0 <= i < |r| ==> r[i] == s[i]
  {
    if |s| <= n then s else s[..n]
  }

  /** The history after `saveChatHistory`: the conversation for `url`
      replaces the first entry with that URL, or is put in front when
      there is none, and only the first ten entries are kept. */
  function Upsert(h: seq<Conversation>, url: string, msgs: seq<Message>, now: int): (r: seq<Conversation>)
    ensures |r| <= HistoryLimit
  {
    var entry := Conversation(url, msgs, now);
    var k := IndexOfUrl(h, url);
    Take(if k >= 0 then h[k := entry] else [entry] + h, HistoryLimit)
  }

  predicate UrlsDistinct(h: seq<Conversation>) {
    forall i, j :: 0 <= i < j < |h| ==> h[i].repoUrl != h[j].repoUrl
  }

  /** A URL already in the history is updated where it stands; every other
      entry keeps its place and value. */
  lemma UpsertReplaces(h: seq<Conversation>, url: string, msgs: seq<Message>, now: int)
    requires exists i :: 0 <= i < |h| && h[i].repoUrl == url
    ensures var r := Upsert(h, url, msgs, now);
      var k := IndexOfUrl(h, url);
      |r| == (if |h| <= HistoryLimit then |h| else HistoryLimit) &&
      (k < HistoryLimit ==> r[k] == Conversation(url, msgs, now)) &&
      forall j :: 0 <= j < |r| && j != k ==> r[j] == h[j]
  {
  }

  /** A new URL is put at the front, the others move back by one, and what
      falls beyond the tenth place is dropped. */
  lemma UpsertPrepends(h: seq<Conversation>, url: string, msgs: seq<Message>, now: int)
    requires forall i :: 0 <= i < |h| ==> h[i].repoUrl != url
    ensures var r := Upsert(h, url, msgs, now);
      |r| == (if |h| + 1 <= HistoryLimit then |h| + 1 else HistoryLimit) &&
      r[0] == Conversation(url, msgs, now) &&
      forall j :: 1 <= j < |r| ==> r[j] == h[j - 1]
  {
  }

  /** A history of at most ten entries with distinct URLs stays distinct,
      and the saved URL is in it afterwards (once, by distinctness). */
  lemma UpsertDistinct(h: seq<Conversation>, url: string, msgs: seq<Message>, now: int)
    requires UrlsDistinct(h) && |h| <= HistoryLimit
    ensures UrlsDistinct(Upsert(h, url, msgs, now))
    ensures exists i :: 0 <= i < |Upsert(h, url, msgs, now)| && Upsert(h, url, msgs, now)[i].repoUrl == url
  {
    var r := Upsert(h, url, msgs, now);
    var entry := Conversation(url, msgs, now);
    var k := IndexOfUrl(h, url);
    if k >= 0 {
      var u := h[k := entry];
      assert r == u;
      assert r[k].repoUrl == url;
      forall i, j | 0 <= i < j < |r| ensures r[i].repoUrl != r[j].repoUrl {
        assert r[i].repoUrl == h[i].repoUrl && r[j].repoUrl == h[j].repoUrl;
      }
    } else {
      var u := [entry] + h;
      assert forall i :: 0 <= i < |r| ==> r[i] == u[i];
      assert r[0].repoUrl == url;
      forall i, j | 0 <= i < j < |r| ensures r[i].repoUrl != r[j].repoUrl {
        if i > 0 {
          assert r[i] == h[i - 1] && r[j] == h[j - 1];
        }
      }
    }
  }

  /** `findIndex`, as a loop over the history. */
  method FindConversation(h: seq<Conversation>, url: string) returns (k: int)
    ensures k == IndexOfUrl(h, url)
    ensures k == -1 || (0 <= k < |h| && h[k].repoUrl == url)
  {
    var i := 0;
    while i < |h|
      invariant 0 <= i <= |h|
      invariant forall j :: 0 <= j < i ==> h[j].repoUrl != url
    {
      if h[i].repoUrl == url {
        return i;
      }
      i := i + 1;
    }
    return -1;
  }

  // ----- the transcript -----

  function Line(m: Message): string {
    RoleName(m.role) + ": " + m.content
  }

  function Lines(msgs: seq<Message>): (r: seq<string>)
    ensures |r| == |msgs|
    ensures forall k :: 0 <= k < |msgs| ==> r[k] == Line(msgs[k])
  {
    if msgs == [] then [] else [Line(msgs[0])] + Lines(msgs[1..])
  }

  /** The earlier messages as the prompt shows them: `role: content`, one
      per line. */
  function Transcript(msgs: seq<Message>): string {
    Text.Join(Lines(msgs), "\n")
  }

  /** Each further message adds one line at the end of the transcript. */
  lemma TranscriptAppend(msgs: seq<Message>, m: Message)
    requires |msgs| > 0
    ensures Transcript(msgs + [m]) == Transcript(msgs) + "\n" + Line(m)
  {
    assert Lines(msgs + [m]) == Lines(msgs) + [Line(m)];
    Text.JoinAppend(Lines(msgs), [Line(m)], "\n");
  }

  /** When no message holds a line break, the transcript's lines are the
      messages' `role: content` lines, in order. */
  lemma TranscriptLines(msgs: seq<Message>)
    requires |msgs| > 0
    requires forall k :: 0 <= k < |msgs| ==> '\n' !in msgs[k].content
    ensures Text.Split(Transcript(msgs), "\n") == Lines(msgs)
  {
    forall k | 0 <= k < |msgs| ensures '\n' !in Lines(msgs)[k] {
      LineSingle(msgs[k]);
    }
    Text.SplitJoin(Lines(msgs), '\n');
  }

  lemma LineSingle(m: Message)
    requires '\n' !in m.content
    ensures '\n' !in Line(m)
  {
    assert Line(m) == RoleName(m.role) + (": " + m.content);
    match m.role
    case User =>
    case Assistant =>
  }

  // ----- the repository context -----

  /** `commits.slice(0, 5)`: the first five commits, in order. */
  function LastCommits(commits: seq<Commit>): (r: seq<Commit>)
    ensures |r| <= CommitLimit
    ensures |commits| >= CommitLimit ==> |r| == CommitLimit
    ensures |commits| < CommitLimit ==> r == commits
    ensures r == commits[..|r|]
  {
    if |commits| <= CommitLimit then commits else commits[..CommitLimit]
  }

  /** `analyzeRepository`: the token, the URL's owner and name (`pathname`
      is what `new URL` gives, or its error), then the fetched name,
      description, language keys and commits, whose requests are not
      checked. */
  function Analysis(user: Option<string>, row: Option<string>, pathname: Result<string>,
                    name: string, description: string, languages: seq<string>,
                    commits: seq<Commit>): (r: Result<RepoContext>)
    ensures GitHub.FetchToken(user, row).Err? ==> r == Err(GitHub.FetchToken(user, row).error)
    ensures GitHub.FetchToken(user, row).Ok? && GitHub.OwnerAndRepo(pathname).Err? ==>
      r == Err(GitHub.OwnerAndRepo(pathname).error)
    ensures r.Ok? <==> GitHub.FetchToken(user, row).Ok? && GitHub.OwnerAndRepo(pathname).Ok?
    ensures r.Ok? ==> r.value.lastCommits == LastCommits(commits) && r.value.languages == languages
  {
    match GitHub.FetchToken(user, row)
    case Err(e) => Err(e)
    case Ok(_) =>
      match GitHub.OwnerAndRepo(pathname)
      case Err(e) => Err(e)
      case Ok(_) => Ok(RepoContext(name, description, languages, LastCommits(commits)))
  }

  /** The assistant's first message about an analysed repository. */
  function Welcome(c: RepoContext): string {
    "I've analyzed the repository \"" + c.name + "\". You can ask me questions about:\n\n" +
    "\U{2022} Code structure and languages (" + Text.Join(c.languages, ", ") + ")\n" +
    "\U{2022} Recent commits and changes\n" +
    "\U{2022} Project dependencies and setup\n\n" +
    "What would you like to know?"
  }

  /** The page's state. */
  class ChatbotPage {
    var repoUrl: string
    var message: string
    var loading: bool
    var error: string
    var messages: seq<Message>
    var chatHistory: seq<Conversation>
    var showHistory: bool
    var repoContext: Option<RepoContext>

    /** The page as it opens, with the history read back from storage. */
    constructor (stored: seq<Conversation>)
      ensures repoUrl == "" && message == "" && !loading && error == "" && messages == []
      ensures chatHistory == stored && !showHistory && repoContext == None
    {
      repoUrl := "";
      message := "";
      loading := false;
      error := "";
      messages := [];
      chatHistory := stored;
      showHistory := false;
      repoContext := None;
    }

    /** `saveChatHistory`; `now` is the clock reading. Only the history
        changes. */
    method SaveChatHistory(url: string, msgs: seq<Message>, now: int)
      modifies this
      ensures chatHistory == Upsert(old(chatHistory), url, msgs, now)
      ensures repoUrl == old(repoUrl) && message == old(message) && loading == old(loading)
      ensures error == old(error) && messages == old(messages) && showHistory == old(showHistory)
      ensures repoContext == old(repoContext)
    {
      var newHistory := chatHistory;
      var k := FindConversation(newHistory, url);
      if k != -1 {
        newHistory := newHistory[k := Conversation(url, msgs, now)];
      } else {
        newHistory := [Conversation(url, msgs, now)] + newHistory;
      }
      chatHistory := if |newHistory| <= HistoryLimit then newHistory else newHistory[..HistoryLimit];
    }

    /** `analyzeRepo`. A blank URL only sets an error (`requested` is
        false). Otherwise, on success the context is kept, the log is just
        the welcome message and that conversation is saved; on failure the
        context is cleared and the log and history are left alone. */
    method AnalyzeRepo(user: Option<string>, row: Option<string>, pathname: Result<string>,
                       name: string, description: string, languages: seq<string>,
                       commits: seq<Commit>, now: int) returns (requested: bool)
      modifies this
      ensures requested <==> Text.Trim(old(repoUrl)) != ""
      ensures repoUrl == old(repoUrl) && message == old(message) && showHistory == old(showHistory)
      ensures requested ==> !loading
      ensures !requested ==>
        loading == old(loading) && error == BlankUrl && messages == old(messages) &&
        chatHistory == old(chatHistory) && repoContext == old(repoContext)
      ensures requested ==>
        match Analysis(user, row, pathname, name, description, languages, commits)
        case Ok(c) =>
          repoContext == Some(c) && error == "" && messages == [Message(Assistant, Welcome(c))] &&
          chatHistory == Upsert(old(chatHistory), repoUrl, messages, now)
        case Err(m) =>
          repoContext == None && error == m && messages == old(messages) && chatHistory == old(chatHistory)
    {
      if Text.Trim(repoUrl) == "" {
        error := BlankUrl;
        return false;
      }
      requested := true;
      loading := true;
      error := "";
      var context := Analysis(user, row, pathname, name, description, languages, commits);
      if context.Err? {
        error := context.error;
        repoContext := None;
      } else {
        repoContext := Some(context.value);
        messages := [Message(Assistant, Welcome(context.value))];
        SaveChatHistory(repoUrl, messages, now);
      }
      loading := false;
    }

    /** `handleSubmit`. With a blank message or no context nothing happens
        (`sent` is `None`). Otherwise the user's message is logged and the
        input cleared, `sent` is the transcript of the earlier messages the
        prompt carries, and a reply is logged after it and the conversation
        saved; a failed reply leaves the user's message logged and sets the
        error. */
    method HandleSubmit(reply: Result<string>, now: int) returns (sent: Option<string>)
      modifies this
      ensures sent.None? <==> Text.Trim(old(message)) == "" || old(repoContext).None?
      ensures repoUrl == old(repoUrl) && repoContext == old(repoContext) && showHistory == old(showHistory)
      ensures sent.None? ==>
        message == old(message) && messages == old(messages) &&
        chatHistory == old(chatHistory) && error == old(error) && loading == old(loading)
      ensures sent.Some? ==> sent.value == Transcript(old(messages)) && message == "" && !loading
      ensures sent.Some? && reply.Ok? ==>
        messages == old(messages) + [Message(User, old(message)), Message(Assistant, reply.value)] &&
        error == "" && chatHistory == Upsert(old(chatHistory), repoUrl, messages, now)
      ensures sent.Some? && reply.Err? ==>
        messages == old(messages) + [Message(User, old(message))] &&
        error == reply.error && chatHistory == old(chatHistory)
    {
      if Text.Trim(message) == "" || repoContext.None? {
        return None;
      }
      loading := true;
      error := "";
      var question := message;
      var earlier := messages;
      var newMessages := messages + [Message(User, question)];
      messages := newMessages;
      message := "";
      sent := Some(Transcript(earlier));
      if reply.Err? {
        error := reply.error;
      } else {
        messages := newMessages + [Message(Assistant, reply.value)];
        SaveChatHistory(repoUrl, messages, now);
      }
      loading := false;
    }

    /** `loadConversation`: the saved conversation's URL and messages are
        shown and the history panel closed. */
    method LoadConversation(c: Conversation)
      modifies this
      ensures repoUrl == c.repoUrl && messages == c.messages && !showHistory
      ensures chatHistory == old(chatHistory) && message == old(message) && error == old(error)
      ensures repoContext == old(repoContext) && loading == old(loading)
    {
      repoUrl := c.repoUrl;
      messages := c.messages;
      showHistory := false;
    }

    /** `clearHistory`: the history is emptied and its panel closed. */
    method ClearHistory()
      modifies this
      ensures chatHistory == [] && !showHistory
      ensures repoUrl == old(repoUrl) && messages == old(messages) && message == old(message)
      ensures error == old(error) && repoContext == old(repoContext) && loading == old(loading)
    {
      chatHistory := [];
      showHistory := false;
    }
  }
}
