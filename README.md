# rtv subreddit page — a Dafny model

This project models the subreddit listing page of rtv, a terminal reddit
viewer (`rtv/subreddit.py`). It covers four parts of the page:

- **Entry layout** (`draw_item`). `Layout.ItemLayout` gives every curses write
  that drawing one listing entry issues: its row, start column, length limit,
  text and attribute. `Layout.DrawItem` issues the same writes one at a time
  to a `Terminal.Window`. The window records each `addnstr` call and moves
  its cursor the way `getyx` reports it. The lemmas prove:
  - no write lands outside the window's rows or outside the entry's own rows;
  - column 0, which holds the cursor, is never written;
  - no text runs past the last usable column;
  - which write lands on which row;
  - exactly one vote glyph is drawn, and it matches the vote state;
  - a link is magenta exactly when it has been opened.
- **Feed refresh** (`refresh_content`, `prompt_subreddit`). `Page.Refresh` and
  `Page.Prompt` are the state transitions; `Page.SubredditPage` is the page
  object that performs them.
  - Falsy names load the current feed again.
  - A successful load replaces the content and resets the navigator to page 0, cursor 0, not inverted.
  - Either failure shows exactly one message and changes nothing else.
  - A cancelled prompt does nothing.
- **Opened links** (`_opened_links`, `open_link`, `open_submission`).
  `History.OpenedLinks` is the session-wide set. `History.AfterOpen` and
  `History.AfterAll` are its transitions.
  - The set only grows.
  - A link is in the set exactly when some event recorded it: following the link always records it, opening the comment page records it only for a self post.
  - Once opened, a link's row stays magenta.
- **Key dispatch** (`loop`). `Keys.Dispatch` maps a key code to the ordered
  actions the loop takes for it. Its contract ties it, key category by key
  category, to the table `Keys.Bindings`. `Keys.Loop` runs the event loop
  over a sequence of key presses and returns the trace of actions. The lemmas
  prove:
  - exiting is the last action;
  - keys after `q` are ignored;
  - every action that opens, refreshes, votes, prompts or shows help is followed by a redraw;
  - scrolling alone never redraws from the loop.

Behaviour of the code worth noting:

- After a cursor move the loop does not redraw. It only clears the input queue.
- The opened-link set is a plain module-level set, shared by the whole session and updated on one thread.
- The flair fragment is always written, even when the flair is empty.

## Model

| member | source | states |
|---|---|---|
| `Terminal.Written` | rtv/subreddit.py:162-165 | a write of `text` limited to `n` fills min(len, n) cells, and the whole text when the limit is negative; the cursor advances by that much |
| `Terminal.Window.AddNStrAt` | rtv/subreddit.py:141 | `addnstr(row, col, text, n, attr)` appends exactly that write and leaves the cursor on `row`, just past the written cells |
| `Terminal.Window.AddNStr` | rtv/subreddit.py:162 | `addnstr(text, n, attr)` writes at the current cursor and advances only its column |
| `Layout.ItemLayout` | rtv/subreddit.py:127-174 | the reference definition of `draw_item`'s writes; in a window with no rows nothing is drawn. `InWindow`, `Bands`, `TitleRow`, `LinkRow`, `ScoreRow` and `AuthorRow` state where its writes land, and `DrawItem` is proved to issue exactly them |
| `Layout.Offset` | rtv/subreddit.py:135 | the offset is 0 when not inverted; when inverted, the entry's last announced row lands on the window's last row |
| `Layout.VoteGlyph` | rtv/subreddit.py:156-161 | no vote, an upvote and a downvote each get their own glyph (bullet, up arrow, down arrow), in both directions |
| `Layout.VoteAttr` | rtv/subreddit.py:156-161 | the glyph is always bold, never underlined; it has no colour for no vote, green exactly for an upvote and red exactly for a downvote |
| `Layout.LinkAttr` | rtv/subreddit.py:145-147 | the link is underlined; it is magenta exactly when seen and blue exactly when not |
| `Layout.Pack` | rtv/subreddit.py:162-174 | packing a row gives one write per fragment |
| `Layout.PackShape` | rtv/subreddit.py:162-174 | every packed write is on the row, starts between the start column and the last usable column, and is limited to the columns left before the last usable column |
| `Layout.PackThree` | rtv/subreddit.py:153-165 | a three-fragment row is: the first write at column 1 with limit `n_cols - 1`; then each later write at the cursor the previous one left, with limit `n_cols - x` |
| `Layout.TitleLines` | rtv/subreddit.py:137-141 | no more title writes than title lines |
| `Layout.TitleLinesShape` | rtv/subreddit.py:137-141 | every title write is bold, at column 1, limited to `n_cols - 1`, on a row of the window within the title block |
| `Layout.TitleLinesAt` | rtv/subreddit.py:137-141 | row `offset + k` holds exactly the write of sanitised title line `k` when the row is in the window, and nothing otherwise |
| `Layout.InWindow` | rtv/subreddit.py:130-174 | for a window at least 2 columns wide: every write is on a row inside the window and inside the entry's rows; it starts at column 1 or later; its limit is `n_cols - col`; and it ends by column `n_cols` |
| `Layout.Bands` | rtv/subreddit.py:137-174 | the writes on any row come from exactly one band: titles above the link row, then the link, score and author rows, and nothing below them |
| `Layout.TitleRow` | rtv/subreddit.py:137-141 | title line `k` is the only write on row `offset + k`: bold, column 1, limit `width - 2`, sanitised; and nothing is written when the row is outside the window |
| `Layout.LinkRow` | rtv/subreddit.py:143-149 | the row after the titles holds one underlined write of the sanitised url, magenta exactly when the full url was opened; nothing when the row is clipped |
| `Layout.ScoreRow` | rtv/subreddit.py:151-165 | the next row holds exactly three writes: the sanitised score, exactly one vote glyph with its attribute, then the sanitised age and comment count, each packed at the cursor; nothing when the row is clipped |
| `Layout.AuthorRow` | rtv/subreddit.py:167-174 | the next row holds the sanitised author in bold, the subreddit in yellow and the flair in red, packed left to right; nothing when the row is clipped |
| `Layout.InvertedShowsLastRow` | rtv/subreddit.py:135 | drawn inverted, an entry announcing its titles plus three rows puts its author row on the window's last row |
| `Layout.ThreeTitleExample` | rtv/subreddit.py:133-174 | three title lines fill rows 0 to 5 of a six-row window; in a four-row window the link row is last and the score and author rows are clipped |
| `Layout.DrawTitles` | rtv/subreddit.py:137-141 | the title loop issues exactly the title writes and leaves the cursor after the last of them |
| `Layout.DrawLinkRow` | rtv/subreddit.py:143-149 | the link-row code issues exactly the link-row writes |
| `Layout.DrawScoreRow` | rtv/subreddit.py:151-165 | the score-row code, reading the cursor back after each write, issues exactly the packed score-row writes |
| `Layout.DrawAuthorRow` | rtv/subreddit.py:167-174 | the author-row code issues exactly the packed author-row writes |
| `Layout.DrawItem` | rtv/subreddit.py:127-174 | for a window at least 2 columns wide, `draw_item` appends to the window exactly the writes of `ItemLayout`, in order, and leaves the cursor after the last one |
| `History.OpenedLinks.constructor` | rtv/subreddit.py:14 | the session starts with no opened links |
| `History.OpenedLinks.Add` | rtv/subreddit.py:125 | adding a link adds exactly that link |
| `History.AfterOpen` | rtv/subreddit.py:107-125 | one event never removes a link; a link is in the result exactly when it was there before or the event records it |
| `History.AfterAll` | rtv/subreddit.py:14-125 | the opened links after a series of opens: only the full urls of the entries opened can have been added; `OnlyGrows` and `Membership` state the rest |
| `History.OnlyGrows` | rtv/subreddit.py:14-125 | no series of opens removes a link |
| `History.Membership` | rtv/subreddit.py:107-125 | after a series of events, a link is opened exactly when it was opened before or some event recorded it; both directions |
| `History.OpenedLinkStaysMagenta` | rtv/subreddit.py:118-125 | after the user follows an entry's link, its link row is magenta whatever happens next |
| `History.ExternalSubmissionKeepsColour` | rtv/subreddit.py:114-116 | opening the comments of an entry that links elsewhere does not change how its link row is drawn |
| `Page.FeedName` | rtv/subreddit.py:76 | the feed loaded is the requested name unless that is absent or empty; then it is the current feed's name |
| `Page.Refresh` | rtv/subreddit.py:74-90 | a message is added exactly when the load fails. On success the content is the loaded one and the navigator is reset to (0, 0, not inverted). On failure, content and navigator are unchanged and exactly one message is added: 'Invalid subreddit' or 'Could not reach subreddit' |
| `Page.RefreshAddsAtMostOneMessage` | rtv/subreddit.py:80-86 | a refresh keeps every earlier message and adds at most one |
| `Page.RetryAfterFailure` | rtv/subreddit.py:74-90 | after a failed refresh, refreshing with no name loads the same feed; if that fails the same way, only a second copy of the message is added |
| `Page.Prompt` | rtv/subreddit.py:92-105 | a cancelled prompt leaves the page's content, navigator and messages unchanged; an empty answer reloads the current feed like a plain refresh; any other answer refreshes with that name |
| `Page.SubredditPage.RefreshContent` | rtv/subreddit.py:74-90 | the page's content, navigator fields and messages become those of `Refresh` |
| `Page.SubredditPage.PromptSubreddit` | rtv/subreddit.py:92-105 | the page's state becomes that of `Prompt` on what the text prompt returned |
| `Page.SubredditPage.OpenSubmission` | rtv/subreddit.py:107-116 | the full url is added to the opened links only for a self post |
| `Page.SubredditPage.OpenLink` | rtv/subreddit.py:118-125 | the full url is always added to the opened links |
| `Keys.Dispatch` | rtv/subreddit.py:29-72 | an unlisted key does nothing. A move key moves, then clears the input queue. `q` only exits. Resize only redraws. Every other listed key performs its own action, then redraws |
| `Keys.Run` | rtv/subreddit.py:25-72 | the actions of the `while True` loop after its first draw; a run that exits ends with the exit. `Loop` is proved to produce it, and `RunAppend`, `ExitIsLast`, `KeysAfterQuitIgnored`, `RedrawFollows` and `ScrollingNeverDraws` state its properties |
| `Keys.Loop` | rtv/subreddit.py:25-72 | the loop draws once, then performs each key's actions in order until an exit; it reports an exit exactly when the trace contains one |
| `Keys.RunAppend` | rtv/subreddit.py:27-72 | a run that has not exited continues with the actions of the following keys |
| `Keys.ExitIsLast` | rtv/subreddit.py:64-65 | no action follows an exit |
| `Keys.KeysAfterQuitIgnored` | rtv/subreddit.py:64-65 | keys pressed after `q` are never acted on |
| `Keys.RedrawFollows` | rtv/subreddit.py:40-72 | every action that opens, refreshes, votes, prompts or shows help is immediately followed by a redraw |
| `Keys.ScrollingNeverDraws` | rtv/subreddit.py:32-38 | a run of up/down keys only moves the cursor and clears the queue; the loop never redraws during it |

## Left out

- The curses I/O itself is not modelled: `getmaxyx`, `getch`, `derwin`, `attrset`, `refresh`, and the prompt's own `addstr`. A window is its size, its cursor and the list of writes it received.
- A write's length is counted in characters; the display width of wide characters is not modelled.
- `Symbol.clean` and the glyph strings are parameters (a `Symbols` value), since their definitions are in `rtv/utils.py`, which is not part of this model.
- `Color` and `Symbol` values are enum constants; the curses attribute bits are not.
- A write with no attribute argument (the score and the age/comment fragments) uses the window's current attributes in curses; the model takes those to be A_NORMAL (`Terminal.Normal`).
- `str.format` of the entry fields is not modelled: the fields arrive as text, and each fragment is their concatenation with the literal spaces.
- `likes` takes only the three values None, True and False (the `Vote` type); other truthy values are not modelled.
- `DrawItem` receives the opened links as a set value, the contents of `_opened_links` when the entry is drawn.
- `FetchResult` has only three outcomes: a loaded listing, `SubredditNameError` and `HTTPError`, the two exceptions `refresh_content` catches. Any other exception from `from_name` propagates out of `refresh_content` in the source; that path is not modelled.
- `SubredditContent.from_name` is the `fetch` parameter (`rtv/content.py` is not part of this model). The `LoadScreen` spinner is omitted.
- `content.get(nav.absolute_index)` is not modelled: `OpenSubmission` and `OpenLink` take the entry under the cursor as a parameter.
- `SubmissionPage.loop`, `open_browser` and `display_help` are left out (`rtv/submission.py` and `rtv/utils.py` are not part of this model). `text_input`'s answer is a parameter.
- `display_message` is modelled as appending the message lines to the page's `messages`; how the message is shown is not modelled.
- `__init__` is not modelled: the `SubredditPage` constructor takes content already loaded.
- `move_cursor_up`, `move_cursor_down`, `clear_input_queue`, `upvote`, `downvote` and `draw` belong to `BasePage` (`rtv/page.py`, not part of this model). In `Keys` they appear only as actions in the trace. `Keys.Loop` records actions and does not perform them on a page.
- `sys.exit` is the `Exit` action, which ends the run.
- The endless `while True` over key presses is modelled on a finite sequence of key presses. The loop stops when the presses run out.
- Concurrency is not modelled; the page runs on one thread.
- DrawItem: requires a window at least 2 columns wide. In a 1-column window column 1 does not exist, so the first `addnstr(row, 1, …)` on any drawn row fails and Python raises `curses.error`; that error path is not modelled.
- InWindow: stated only for windows at least 2 columns wide, both its row and its column bounds, for the same reason as `DrawItem`.
- Bands: stated only for windows at least 2 columns wide, like `InWindow`.
- TitleRow: stated only for windows at least 2 columns wide, like `InWindow`.
- LinkRow: stated only for windows at least 2 columns wide, like `InWindow`.
- ScoreRow: stated only for windows at least 2 columns wide, like `InWindow`.
- AuthorRow: stated only for windows at least 2 columns wide, like `InWindow`.
