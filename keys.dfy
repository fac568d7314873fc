/** The subreddit page's event loop: which actions each key press triggers,
    and the trace of actions the loop performs over a series of key presses. */
module Keys {

  /** ncurses key codes for the special keys the loop reacts to. */
  const KeyDown := 258
  const KeyUp := 259
  const KeyRight := 261
  const KeyF5 := 269
  const KeyEnter := 343
  const KeyResize := 410

  /** The page operations the loop invokes; `Exit` is leaving the program and
      `Draw` is redrawing the page. */
  datatype Action =
    | MoveCursorUp | MoveCursorDown | ClearInputQueue
    | OpenSubmission | OpenLink | RefreshContent | DisplayHelp
    | Upvote | Downvote | PromptSubreddit
    | Exit | Draw

  /** The key bindings as a table: the one action each listed key stands for. */
  const Bindings: map<int, Action> := map[
    KeyUp := MoveCursorUp, 'k' as int := MoveCursorUp,
    KeyDown := MoveCursorDown, 'j' as int := MoveCursorDown,
    KeyRight := OpenSubmission, KeyEnter := OpenSubmission, 'l' as int := OpenSubmission,
    'o' as int := OpenLink,
    KeyF5 := RefreshContent, 'r' as int := RefreshContent,
    '?' as int := DisplayHelp,
    'a' as int := Upvote,
    'z' as int := Downvote,
    'q' as int := Exit,
    KeyResize := Draw,
    '/' as int := PromptSubreddit]

  predicate IsMove(a: Action)
  {
    a == MoveCursorUp || a == MoveCursorDown
  }

  /** The actions the loop performs for one key press, in order. */
  function Dispatch(cmd: int): (acts: seq<Action>)
    ensures cmd !in Bindings ==> acts == []
    ensures cmd in Bindings && IsMove(Bindings[cmd]) ==> acts == [Bindings[cmd], ClearInputQueue]
    ensures cmd in Bindings && Bindings[cmd] in {Exit, Draw} ==> acts == [Bindings[cmd]]
    ensures cmd in Bindings && !IsMove(Bindings[cmd]) && Bindings[cmd] !in {Exit, Draw} ==>
      acts == [Bindings[cmd], Draw]
  {
    if cmd == KeyUp || cmd == 'k' as int then [MoveCursorUp, ClearInputQueue]
    else if cmd == KeyDown || cmd == 'j' as int then [MoveCursorDown, ClearInputQueue]
    else if cmd == KeyRight || cmd == KeyEnter || cmd == 'l' as int then [OpenSubmission, Draw]
    else if cmd == 'o' as int then [OpenLink, Draw]
    else if cmd == KeyF5 || cmd == 'r' as int then [RefreshContent, Draw]
    else if cmd == '?' as int then [DisplayHelp, Draw]
    else if cmd == 'a' as int then [Upvote, Draw]
    else if cmd == 'z' as int then [Downvote, Draw]
    else if cmd == 'q' as int then [Exit]
    else if cmd == KeyResize then [Draw]
    else if cmd == '/' as int then [PromptSubreddit, Draw]
    else []
  }

  /** The actions the loop performs for the key presses `keys` after its first
      draw; a press that exits ends the run, so a run that exits ends with it. */
  function Run(keys: seq<int>): (r: seq<Action>)
    ensures Exit in r ==> r[|r| - 1] == Exit
    decreases |keys|
  {
    if keys == [] then []
    else if Exit in Dispatch(keys[0]) then Dispatch(keys[0])
    else Dispatch(keys[0]) + Run(keys[1..])
  }

  /** `loop` over the key presses `keys`: draws once, then performs each press's
      actions until one exits or the presses run out. */
  method Loop(keys: seq<int>) returns (trace: seq<Action>, exited: bool)
    ensures trace == [Draw] + Run(keys)
    ensures exited <==> Exit in trace
  {
    trace := [Draw];
    exited := false;
    var i := 0;
    while i < |keys| && !exited
      invariant 0 <= i <= |keys|
      invariant !exited ==> trace + Run(keys[i..]) == [Draw] + Run(keys)
      invariant !exited ==> Exit !in trace
      invariant exited ==> trace == [Draw] + Run(keys) && Exit in trace
      decreases |keys| - i
    {
      var acts := Dispatch(keys[i]);
      assert keys[i..][0] == keys[i] && keys[i..][1..] == keys[i + 1..];
      if Exit in acts {
        assert Run(keys[i..]) == acts;
        exited := true;
      } else {
        assert Run(keys[i..]) == acts + Run(keys[i + 1..]);
      }
      trace := trace + acts;
      i := i + 1;
    }
    if !exited {
      assert keys[i..] == [];
    }
  }

  /** A run that has not exited can be continued with more presses. */
  lemma {:induction false} RunAppend(a: seq<int>, b: seq<int>)
    requires Exit !in Run(a)
    ensures Run(a + b) == Run(a) + Run(b)
    decreases |a|
  {
    if a == [] {
      assert a + b == b;
    } else {
      var d := Dispatch(a[0]);
      assert Exit !in d;
      assert Run(a) == d + Run(a[1..]);
      assert (a + b)[0] == a[0];
      assert (a + b)[1..] == a[1..] + b;
      assert Run(a + b) == d + Run(a[1..] + b);
      RunAppend(a[1..], b);
      assert d + (Run(a[1..]) + Run(b)) == (d + Run(a[1..])) + Run(b);
    }
  }

  /** Exiting is the last thing a run does, and it does it at most once. */
  lemma {:induction false} ExitIsLast(keys: seq<int>)
    ensures forall i :: 0 <= i < |Run(keys)| - 1 ==> Run(keys)[i] != Exit
    decreases |keys|
  {
    if keys != [] && Exit !in Dispatch(keys[0]) {
      ExitIsLast(keys[1..]);
      var d, rest := Dispatch(keys[0]), Run(keys[1..]);
      assert Run(keys) == d + rest;
      forall i | 0 <= i < |d + rest| - 1
        ensures (d + rest)[i] != Exit
      {
        if i >= |d| {
          assert (d + rest)[i] == rest[i - |d|];
        }
      }
    }
  }

  /** Presses after the one that exits are never acted on. */
  lemma KeysAfterQuitIgnored(a: seq<int>, b: seq<int>)
    requires Exit !in Run(a)
    ensures Run(a + ['q' as int] + b) == Run(a) + [Exit]
  {
    RunAppend(a, ['q' as int] + b);
    assert a + ['q' as int] + b == a + (['q' as int] + b);
    assert (['q' as int] + b)[0] == 'q' as int;
  }

  /** An action that changes the page or shows something is always followed by a redraw. */
  predicate NeedsRedraw(a: Action)
  {
    !IsMove(a) && a !in {ClearInputQueue, Exit, Draw}
  }

  lemma {:induction false} RedrawFollows(keys: seq<int>)
    ensures forall i :: 0 <= i < |Run(keys)| && NeedsRedraw(Run(keys)[i]) ==>
      i + 1 < |Run(keys)| && Run(keys)[i + 1] == Draw
    decreases |keys|
  {
    if keys != [] && Exit !in Dispatch(keys[0]) {
      RedrawFollows(keys[1..]);
      var d, rest := Dispatch(keys[0]), Run(keys[1..]);
      assert Run(keys) == d + rest;
      forall i | 0 <= i < |d + rest| && NeedsRedraw((d + rest)[i])
        ensures i + 1 < |d + rest| && (d + rest)[i + 1] == Draw
      {
        if i >= |d| {
          assert (d + rest)[i] == rest[i - |d|];
          assert (d + rest)[i + 1] == rest[i + 1 - |d|];
        }
      }
    }
  }

  /** Scrolling alone never redraws from the loop: moving the cursor leaves
      redrawing to the move itself. */
  lemma {:induction false} ScrollingNeverDraws(keys: seq<int>)
    requires forall i :: 0 <= i < |keys| ==> keys[i] in {KeyUp, KeyDown, 'k' as int, 'j' as int}
    ensures Draw !in Run(keys)
    ensures forall i :: 0 <= i < |Run(keys)| ==> IsMove(Run(keys)[i]) || Run(keys)[i] == ClearInputQueue
    decreases |keys|
  {
    if keys != [] {
      ScrollingNeverDraws(keys[1..]);
    }
  }
}
