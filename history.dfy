/** The session-wide record of opened links (`_opened_links`), which the
    listing consults to colour a link it has seen. Entries are only ever added. */
module History {
  import opened Terminal
  import opened Layout

  /** The module-level set `_opened_links`. */
  class OpenedLinks {
    var links: set<string>

    constructor ()
      ensures links == {}
    {
      links := {};
    }

    /** `_opened_links.add(url)`. */
    method Add(url: string)
      modifies this
      ensures links == old(links) + {url}
    {
      links := links + {url};
    }
  }

  /** What the user did with a listing entry: followed its link in the
      browser (`open_link`) or opened its comment page (`open_submission`). */
  datatype Event = LinkOpened(data: ItemData) | SubmissionOpened(data: ItemData)

  /** True when `e` records `url` as opened: following a link always does,
      opening a comment page does only for a self post. */
  predicate Records(e: Event, url: string)
  {
    e.data.urlFull == url && (e.LinkOpened? || e.data.url == "selfpost")
  }

  /** The opened links after one event. */
  function AfterOpen(links: set<string>, e: Event): (r: set<string>)
    ensures links <= r
    ensures forall url :: url in r <==> url in links || Records(e, url)
  {
    match e
    case LinkOpened(data) => links + {data.urlFull}
    case SubmissionOpened(data) => if data.url == "selfpost" then links + {data.urlFull} else links
  }

  /** The full urls of the entries that `events` are about. */
  ghost function EventUrls(events: seq<Event>): set<string>
  {
    set i | 0 <= i < |events| :: events[i].data.urlFull
  }

  /** The opened links after a series of events, oldest first: only the full
      urls of the entries the events are about can have been added. */
  function AfterAll(links: set<string>, events: seq<Event>): (r: set<string>)
    ensures r - links <= EventUrls(events)
    decreases |events|
  {
    if events == [] then links
    else
      var r := AfterAll(AfterOpen(links, events[0]), events[1..]);
      assert EventUrls(events) == {events[0].data.urlFull} + EventUrls(events[1..]) by {
        forall u | u in EventUrls(events) ensures u in {events[0].data.urlFull} + EventUrls(events[1..]) {
          var i :| 0 <= i < |events| && events[i].data.urlFull == u;
          if i > 0 { assert events[1..][i - 1] == events[i]; }
        }
        forall u | u in EventUrls(events[1..]) ensures u in EventUrls(events) {
          var i :| 0 <= i < |events[1..]| && events[1..][i].data.urlFull == u;
          assert events[i + 1] == events[1..][i];
        }
      }
      r
  }

  /** No series of events removes a link: the set only grows. */
  lemma {:induction false} OnlyGrows(links: set<string>, events: seq<Event>)
    ensures links <= AfterAll(links, events)
    decreases |events|
  {
    if events != [] {
      OnlyGrows(AfterOpen(links, events[0]), events[1..]);
    }
  }

  /** A link is in the set after a series of events exactly when it was
      there before or one of the events records it. */
  lemma {:induction false} Membership(links: set<string>, events: seq<Event>, url: string)
    ensures url in AfterAll(links, events) <==>
      url in links || exists i :: 0 <= i < |events| && Records(events[i], url)
    decreases |events|
  {
    if events != [] {
      Membership(AfterOpen(links, events[0]), events[1..], url);
      if url in AfterAll(links, events) && url !in links && !Records(events[0], url) {
        var i :| 0 <= i < |events[1..]| && Records(events[1..][i], url);
        assert Records(events[i + 1], url);
      }
      if exists i :: 0 <= i < |events| && Records(events[i], url) {
        var i :| 0 <= i < |events| && Records(events[i], url);
        if i > 0 {
          assert Records(events[1..][i - 1], url);
        }
      }
    }
  }

  /** Following an entry's link and then any further events leaves the entry's link row magenta. */
  lemma OpenedLinkStaysMagenta(links: set<string>, data: ItemData, events: seq<Event>, sym: Symbols)
    ensures UrlFragments(data, AfterAll(AfterOpen(links, LinkOpened(data)), events), sym)[0].attr.color == Magenta
  {
    OnlyGrows(AfterOpen(links, LinkOpened(data)), events);
  }

  /** Opening the comment page of an entry that links elsewhere leaves its link row as it was. */
  lemma ExternalSubmissionKeepsColour(links: set<string>, data: ItemData, sym: Symbols)
    requires data.url != "selfpost"
    ensures UrlFragments(data, AfterOpen(links, SubmissionOpened(data)), sym) == UrlFragments(data, links, sym)
  {
  }
}
