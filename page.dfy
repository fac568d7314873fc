/** The subreddit page's state transitions: refreshing the feed, the
    subreddit prompt, and opening an entry's comments or link. */
module Page {
  import opened Layout
  import opened History

  datatype Option<T> = None | Some(value: T)

  /** A loaded listing: the feed's name and its entries. */
  datatype Content = Content(name: string, items: seq<ItemData>)

  /** The three outcomes of loading a feed by name: the listing, a name the
      site rejects (SubredditNameError), or a failed request (HTTPError). */
  datatype FetchResult = Fetched(content: Content) | InvalidName | Unreachable

  /** The navigator's state: page index, cursor index and whether the page is drawn from the bottom. */
  datatype Nav = Nav(pageIndex: int, cursorIndex: int, inverted: bool)

  /** The navigator state a successful refresh leaves behind. */
  const Home := Nav(0, 0, false)

  /** What the page shows and the message boxes it has displayed, oldest first. */
  datatype PageState = PageState(content: Content, nav: Nav, messages: seq<seq<string>>)

  /** The message box text for a failed load. */
  function ErrorMessage(f: FetchResult): seq<string>
  {
    if f.InvalidName? then ["Invalid subreddit"] else ["Could not reach subreddit"]
  }

  /** The feed a refresh loads: the requested name, or the current feed's name
      when the request is falsy (absent or the empty string). */
  function FeedName(arg: Option<string>, current: string): (name: string)
    ensures name == current || (arg.Some? && name == arg.value)
    ensures arg.Some? && arg.value != "" ==> name == arg.value
    ensures name == current <== arg.None? || arg.value == ""
  {
    if arg.Some? && arg.value != "" then arg.value else current
  }

  /** `refresh_content(name)` on the state `s`, with `fetch` standing for loading a feed. */
  function Refresh(s: PageState, arg: Option<string>, fetch: string -> FetchResult): (r: PageState)
    ensures var f := fetch(FeedName(arg, s.content.name));
      r.messages == s.messages <==> f.Fetched?
    ensures var f := fetch(FeedName(arg, s.content.name));
      f.Fetched? ==> r.content == f.content && r.nav == Home
    ensures var f := fetch(FeedName(arg, s.content.name));
      !f.Fetched? ==> r.content == s.content && r.nav == s.nav && r.messages == s.messages + [ErrorMessage(f)]
  {
    match fetch(FeedName(arg, s.content.name))
    case Fetched(c) => PageState(c, Home, s.messages)
    case InvalidName => PageState(s.content, s.nav, s.messages + [["Invalid subreddit"]])
    case Unreachable => PageState(s.content, s.nav, s.messages + [["Could not reach subreddit"]])
  }

  /** `prompt_subreddit` once the text prompt has returned `out`, absent when
      the user cancelled: a cancelled prompt leaves the page as it was, an
      empty answer reloads the current feed, and any other answer loads that feed. */
  function Prompt(s: PageState, out: Option<string>, fetch: string -> FetchResult): (r: PageState)
    ensures out.None? ==> r == s
    ensures out == Some("") ==> r == Refresh(s, None, fetch)
    ensures out.Some? && out.value != "" ==> r == Refresh(s, Some(out.value), fetch)
  {
    if out.None? then s else Refresh(s, out, fetch)
  }

  /** A refresh shows at most one message, and only appends it. */
  lemma RefreshAddsAtMostOneMessage(s: PageState, arg: Option<string>, fetch: string -> FetchResult)
    ensures var r := Refresh(s, arg, fetch);
      |s.messages| <= |r.messages| <= |s.messages| + 1 && r.messages[..|s.messages|] == s.messages
  {
    var r := Refresh(s, arg, fetch);
    if r.messages != s.messages {
      assert r.messages[..|s.messages|] == s.messages;
    }
  }

  /** After a failed refresh, retrying without a name loads the same feed again,
      and if it fails the same way nothing but the messages has changed. */
  lemma RetryAfterFailure(s: PageState, arg: Option<string>, fetch: string -> FetchResult)
    requires !fetch(FeedName(arg, s.content.name)).Fetched?
    ensures FeedName(None, Refresh(s, arg, fetch).content.name) == s.content.name
    ensures var r := Refresh(s, arg, fetch);
      fetch(s.content.name) == fetch(FeedName(arg, s.content.name)) ==>
      Refresh(r, None, fetch) == s.(messages := r.messages + [r.messages[|r.messages| - 1]])
  {
    var r := Refresh(s, arg, fetch);
    assert r.content == s.content && r.nav == s.nav;
    assert r.messages == s.messages + [ErrorMessage(fetch(FeedName(arg, s.content.name)))];
  }

  /** The navigator object shared with the rest of the page. */
  class Navigator {
    var pageIndex: int
    var cursorIndex: int
    var inverted: bool

    constructor (nav: Nav)
      ensures pageIndex == nav.pageIndex && cursorIndex == nav.cursorIndex && inverted == nav.inverted
    {
      pageIndex, cursorIndex, inverted := nav.pageIndex, nav.cursorIndex, nav.inverted;
    }
  }

  /** `SubredditPage`: the loaded content, its navigator, the session's opened
      links and the message boxes shown so far. */
  class SubredditPage {
    var content: Content
    const nav: Navigator
    const visited: OpenedLinks
    var messages: seq<seq<string>>

    /** The page's state as a value. */
    ghost function State(): PageState
      reads this, nav
    {
      PageState(content, Nav(nav.pageIndex, nav.cursorIndex, nav.inverted), messages)
    }

    /** The page over content already loaded for it, sharing `nav` and `visited`. */
    constructor (content: Content, nav: Navigator, visited: OpenedLinks)
      ensures this.content == content && this.nav == nav && this.visited == visited && messages == []
    {
      this.content := content;
      this.nav := nav;
      this.visited := visited;
      messages := [];
    }

    /** `refresh_content(name)`: loads the feed and either replaces the content
        and resets the navigator, or shows one message and changes nothing else. */
    method RefreshContent(name: Option<string>, fetch: string -> FetchResult)
      modifies this, nav
      ensures State() == Refresh(old(State()), name, fetch)
    {
      var feed := FeedName(name, content.name);
      match fetch(feed) {
        case InvalidName =>
          messages := messages + [["Invalid subreddit"]];
        case Unreachable =>
          messages := messages + [["Could not reach subreddit"]];
        case Fetched(c) =>
          content := c;
          nav.pageIndex, nav.cursorIndex := 0, 0;
          nav.inverted := false;
      }
    }

    /** `prompt_subreddit`, given what the text prompt returned. */
    method PromptSubreddit(out: Option<string>, fetch: string -> FetchResult)
      modifies this, nav
      ensures State() == Prompt(old(State()), out, fetch)
    {
      if out.Some? {
        RefreshContent(out, fetch);
      }
    }

    /** `open_submission` for the entry `data` under the cursor, after its comment page has closed. */
    method OpenSubmission(data: ItemData)
      modifies visited
      ensures visited.links == AfterOpen(old(visited.links), SubmissionOpened(data))
    {
      if data.url == "selfpost" {
        visited.Add(data.urlFull);
      }
    }

    /** `open_link` for the entry `data` under the cursor, after the browser has been started. */
    method OpenLink(data: ItemData)
      modifies visited
      ensures visited.links == AfterOpen(old(visited.links), LinkOpened(data))
    {
      visited.Add(data.urlFull);
    }
  }
}
