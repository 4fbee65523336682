/** engine/DebugUI.hpp: the debug overlay. A flag says whether it is shown, a
    log keeps the six most recent messages, and `Draw` copies a few status
    lines and the log into the top-left corner of the character grid, clipped
    to the grid. The two vector texts (`FormatVec3` output) are passed in as
    strings. */
module DebugUI {
  import opened DataTypes
  import opened FrameBuffer
  import opened TerminalControl

  /** The log keeps at most this many messages. */
  const MaxLogLines: int := 6

  // ---- The log ----

  /** The log after `Log(msg)`: `msg` goes at the end, and when that makes the
      log longer than six the oldest entry is dropped. */
  function Logged(lines: seq<string>, msg: string): (r: seq<string>)
    ensures |r| == if |lines| + 1 > MaxLogLines then |lines| else |lines| + 1
    ensures r == (lines + [msg])[|lines| + 1 - |r|..]
    ensures r[|r| - 1] == msg
    ensures |lines| <= MaxLogLines ==> |r| <= MaxLogLines
  {
    var appended := lines + [msg];
    if |appended| > MaxLogLines then appended[1..] else appended
  }

  /** The last `n` entries of `s` (all of them when there are fewer). */
  function Recent(s: seq<string>, n: nat): (r: seq<string>)
    ensures |r| == if |s| <= n then |s| else n
  {
    if |s| <= n then s else s[|s| - n..]
  }

  /** The log after logging each of `msgs` in turn. */
  function LogAll(lines: seq<string>, msgs: seq<string>): seq<string>
  {
    if |msgs| == 0 then lines else Logged(LogAll(lines, msgs[..|msgs| - 1]), msgs[|msgs| - 1])
  }

  /** Starting from a log of at most six entries, any run of `Log` calls keeps
      exactly the six most recent messages, oldest first. */
  lemma {:induction false} LogAllKeepsMostRecent(lines: seq<string>, msgs: seq<string>)
    requires |lines| <= MaxLogLines
    ensures LogAll(lines, msgs) == Recent(lines + msgs, MaxLogLines)
  {
    if |msgs| > 0 {
      var front, m := msgs[..|msgs| - 1], msgs[|msgs| - 1];
      LogAllKeepsMostRecent(lines, front);
      LoggedRecent(lines + front, m);
      AppendAssoc(lines, front, [m]);
      assert front + [m] == msgs;
    }
  }

  /** One `Log` call on the six most recent entries of `s` gives the six most
      recent entries of `s` followed by the message. */
  lemma LoggedRecent(s: seq<string>, m: string)
    ensures Logged(Recent(s, MaxLogLines), m) == Recent(s + [m], MaxLogLines)
  {
    var kept := Recent(s, MaxLogLines);
    if |s| >= MaxLogLines {
      assert kept[1..] + [m] == (s + [m])[|s| + 1 - MaxLogLines..];
    }
  }

  // ---- The lines `Draw` shows ----

  /** `static_cast<int>` of a `double`: truncation toward zero. */
  function TruncateToInt(r: real): (n: int)
    ensures r >= 0.0 ==> 0 <= n && n as real <= r < n as real + 1.0
    ensures r < 0.0 ==> n <= 0 && n as real - 1.0 < r <= n as real
  {
    if r >= 0.0 then r.Floor else -((-r).Floor)
  }

  /** The key part of the status line: the name of every key marked down,
      each followed by a space, in the map's iteration order. */
  function KeyNames(keys: seq<(int, bool)>): string
  {
    if |keys| == 0 then "" else KeyNames(keys[..|keys| - 1]) + KeyName(keys[|keys| - 1])
  }

  /** One key's part of the status line: its name and a space when it is
      down, nothing when it is up. */
  function KeyName(key: (int, bool)): (text: string)
    ensures !key.1 ==> text == ""
    ensures key.1 ==> |text| >= 2 && text[|text| - 1] == ' '
  {
    if key.1 then PrintableChar(key.0) + " " else ""
  }

  /** Naming one more key appends that key's part. */
  lemma KeyNamesAppend(keys: seq<(int, bool)>, key: (int, bool))
    ensures KeyNames(keys + [key]) == KeyNames(keys) + KeyName(key)
  {
    assert (keys + [key])[..|keys|] == keys;
  }

  /** The codes a key listing names. */
  function Codes(keys: seq<(int, bool)>): set<int>
  {
    set i | 0 <= i < |keys| :: keys[i].0
  }

  /** `keys` lists the entries of `keyState` whose codes are `codes`, each
      exactly once, with its value. */
  predicate ListsPart(keys: seq<(int, bool)>, keyState: map<int, bool>, codes: set<int>)
  {
    (forall i, j :: 0 <= i < j < |keys| ==> keys[i].0 != keys[j].0) &&
    (forall i :: 0 <= i < |keys| ==> keys[i].0 in keyState && keyState[keys[i].0] == keys[i].1) &&
    Codes(keys) == codes
  }

  /** `keys` lists every entry of `keyState` exactly once, with its value, in
      some order: a walk over the map. */
  predicate ListsMap(keys: seq<(int, bool)>, keyState: map<int, bool>)
  {
    ListsPart(keys, keyState, keyState.Keys)
  }

  /** Listing one more entry of the map, not listed yet. */
  lemma {:induction false} ListsPartExtend(keys: seq<(int, bool)>, keyState: map<int, bool>, codes: set<int>, code: int)
    requires ListsPart(keys, keyState, codes) && code in keyState && code !in codes
    ensures ListsPart(keys + [(code, keyState[code])], keyState, codes + {code})
  {
    var more := keys + [(code, keyState[code])];
    assert forall i :: 0 <= i < |keys| ==> more[i] == keys[i];
    assert more[|keys|] == (code, keyState[code]);
    assert Codes(more) == Codes(keys) + {code} by {
      forall c | c in Codes(more)
        ensures c in Codes(keys) + {code}
      {
        var i :| 0 <= i < |more| && more[i].0 == c;
      }
      forall c | c in Codes(keys) + {code}
        ensures c in Codes(more)
      {
        if c == code {
          assert more[|keys|].0 == c;
        } else {
          var i :| 0 <= i < |keys| && keys[i].0 == c;
          assert more[i].0 == c;
        }
      }
    }
    forall i, j | 0 <= i < j < |more|
      ensures more[i].0 != more[j].0
    {
      if j == |keys| {
        assert more[i].0 in Codes(keys);
      }
    }
  }

  /** Only keys marked down are named: a list with none down names nothing. */
  lemma {:induction false} KeyNamesOnlyDown(keys: seq<(int, bool)>)
    requires forall i :: 0 <= i < |keys| ==> !keys[i].1
    ensures KeyNames(keys) == ""
  {
    if |keys| > 0 {
      KeyNamesOnlyDown(keys[..|keys| - 1]);
    }
  }

  /** Whatever order the map is walked in, a key map with no key down names
      nothing. */
  lemma NoKeyDownNamesNothing(keys: seq<(int, bool)>, keyState: map<int, bool>)
    requires ListsMap(keys, keyState)
    requires forall k :: k in keyState ==> !keyState[k]
    ensures KeyNames(keys) == ""
  {
    KeyNamesOnlyDown(keys);
  }

  /** The five status lines: the title, the frame rate, the eye and target
      positions, and the keys held down. */
  function HeaderLines(fps: real, eyeText: string, atText: string, keys: seq<(int, bool)>): seq<string>
  {
    ["[Debug Info]",
     " FPS: " + IntToString(TruncateToInt(fps)),
     " Eye: " + eyeText,
     " At : " + atText,
     " Keys: " + KeyNames(keys)]
  }

  /** One `> `-marked line per log entry, oldest first. */
  function LogLines(logs: seq<string>): (lines: seq<string>)
    ensures |lines| == |logs|
    ensures forall i :: 0 <= i < |logs| ==> lines[i] == "> " + logs[i]
  {
    if |logs| == 0 then [] else LogLines(logs[..|logs| - 1]) + ["> " + logs[|logs| - 1]]
  }

  /** Everything `Draw` shows, top to bottom: the status lines, then each
      logged message after a `> ` marker. With a log of at most six entries
      every line falls on the grid's 24 rows. */
  function OverlayLines(fps: real, eyeText: string, atText: string, keys: seq<(int, bool)>, logs: seq<string>): (lines: seq<string>)
    ensures |lines| == 5 + |logs|
    ensures lines[0] == "[Debug Info]"
    ensures forall i :: 0 <= i < |logs| ==> lines[5 + i] == "> " + logs[i]
    ensures |logs| <= MaxLogLines ==> |lines| <= ScreenHeight
  {
    HeaderLines(fps, eyeText, atText, keys) + LogLines(logs)
  }

  /** The cell at row `r`, column `c` after the blit: the line's character
      when row `r` has a line long enough, otherwise what was there. */
  function Overlay(lines: seq<string>, r: nat, c: nat, prev: char): char
  {
    if r < |lines| && c < |lines[r]| then lines[r][c] else prev
  }

  /** The overlay's state: whether it is shown, and the log. */
  class DebugOverlay {
    var showDebug: bool
    var debugLines: seq<string>

    /** `Log` keeps the log at six entries or fewer. */
    predicate Valid()
      reads this
    {
      |debugLines| <= MaxLogLines
    }

    /** Hidden, with an empty log. */
    constructor()
      ensures Valid() && !showDebug && debugLines == []
    {
      showDebug := false;
      debugLines := [];
    }

    /** `Toggle`: flips whether the overlay is shown. */
    method Toggle()
      modifies this
      ensures showDebug == !old(showDebug) && debugLines == old(debugLines)
    {
      showDebug := !showDebug;
    }

    /** `Clear`: empties the log. */
    method Clear()
      modifies this
      ensures Valid() && debugLines == [] && showDebug == old(showDebug)
    {
      debugLines := [];
    }

    /** `Log`: appends `msg`, dropping the oldest entry when the log would
        exceed six. */
    method Log(msg: string)
      requires Valid()
      modifies this
      ensures Valid()
      ensures debugLines == Logged(old(debugLines), msg)
      ensures showDebug == old(showDebug)
    {
      debugLines := debugLines + [msg];
      if |debugLines| > MaxLogLines {
        debugLines := debugLines[1..];
      }
    }

    /** `Draw`: when hidden, leaves the grid alone. Otherwise it writes line
        `i` of the overlay into row `i` from column 0, skipping rows past the
        24th and characters past the 80th column; every other cell keeps its
        value. */
    method Draw(fb: array2<char>, fps: real, eyeText: string, atText: string, keyState: map<int, bool>)
        returns (ghost keys: seq<(int, bool)>)
      requires ScreenSized(fb)
      modifies fb
      ensures !showDebug ==> forall r, c :: 0 <= r < ScreenHeight && 0 <= c < ScreenWidth ==> fb[r, c] == old(fb[r, c])
      ensures showDebug ==> ListsMap(keys, keyState)
      ensures showDebug ==> forall r, c :: 0 <= r < ScreenHeight && 0 <= c < ScreenWidth ==>
        fb[r, c] == Overlay(OverlayLines(fps, eyeText, atText, keys, debugLines), r, c, old(fb[r, c]))
    {
      keys := [];
      if !showDebug {
        return;
      }
      var lines;
      lines, keys := BuildLines(fps, eyeText, atText, keyState);
      BlitLines(fb, lines);
    }

    /** The first half of `Draw`: the status lines, then one line per log
        entry. */
    method BuildLines(fps: real, eyeText: string, atText: string, keyState: map<int, bool>)
        returns (lines: seq<string>, ghost keys: seq<(int, bool)>)
      ensures ListsMap(keys, keyState)
      ensures lines == OverlayLines(fps, eyeText, atText, keys, debugLines)
    {
      var keyText;
      keyText, keys := KeyLine(keyState);
      var header := ["[Debug Info]", " FPS: " + IntToString(TruncateToInt(fps)), " Eye: " + eyeText, " At : " + atText, keyText];
      lines := header;
      var j := 0;
      while j < |debugLines|
        invariant 0 <= j <= |debugLines|
        invariant lines == header + LogLines(debugLines[..j])
      {
        assert debugLines[..j + 1][..j] == debugLines[..j];
        lines := lines + ["> " + debugLines[j]];
        j := j + 1;
      }
      assert debugLines[..j] == debugLines;
    }
  }

  /** The key line, built entry by entry as the string stream does. The map
      is walked in an unspecified order; `keys` is the order taken, and it
      lists the map exactly. */
  method KeyLine(keyState: map<int, bool>) returns (text: string, ghost keys: seq<(int, bool)>)
    ensures ListsMap(keys, keyState)
    ensures text == " Keys: " + KeyNames(keys)
  {
    text := " Keys: ";
    keys := [];
    var rest := keyState.Keys;
    while exists c :: c in rest
      invariant rest <= keyState.Keys
      invariant ListsPart(keys, keyState, keyState.Keys - rest)
      invariant text == " Keys: " + KeyNames(keys)
      decreases |rest|
    {
      var code :| code in rest;
      var entry := (code, keyState[code]);
      KeyNamesAppend(keys, entry);
      AppendAssoc(" Keys: ", KeyNames(keys), KeyName(entry));
      ListsPartExtend(keys, keyState, keyState.Keys - rest, code);
      assert keyState.Keys - rest + {code} == keyState.Keys - (rest - {code});
      text := text + KeyName(entry);
      keys := keys + [entry];
      rest := rest - {code};
    }
    assert rest == {};
    assert keyState.Keys - rest == keyState.Keys;
  }

  /** The second half of `Draw`: copies `lines[i][x]` into row `i`, column `x`,
      stopping at the grid's last row and last column. */
  method BlitLines(fb: array2<char>, lines: seq<string>)
    requires ScreenSized(fb)
    modifies fb
    ensures forall r, c :: 0 <= r < ScreenHeight && 0 <= c < ScreenWidth ==>
      fb[r, c] == Overlay(lines, r, c, old(fb[r, c]))
  {
    var i := 0;
    while i < |lines|
      invariant 0 <= i <= |lines|
      invariant forall r, c :: 0 <= r < ScreenHeight && 0 <= c < ScreenWidth ==>
        fb[r, c] == if r < i then Overlay(lines, r, c, old(fb[r, c])) else old(fb[r, c])
    {
      if i >= ScreenHeight {
        break;
      }
      var line := lines[i];
      var x := 0;
      while x < |line| && x < ScreenWidth
        invariant 0 <= x <= |line|
        invariant forall r, c :: 0 <= r < ScreenHeight && 0 <= c < ScreenWidth ==>
          fb[r, c] == if r < i || (r == i && c < x) then Overlay(lines, r, c, old(fb[r, c])) else old(fb[r, c])
      {
        fb[i, x] := line[x];
        x := x + 1;
      }
      i := i + 1;
    }
  }

  // ---- Consequences ----

  /** Two toggles restore the original visibility. */
  method ToggleTwiceRestores() returns (afterOne: bool, afterTwo: bool)
    ensures afterOne && !afterTwo
  {
    var o := new DebugOverlay();
    o.Toggle();
    afterOne := o.showDebug;
    o.Toggle();
    afterTwo := o.showDebug;
  }

  /** Logging each message of `msgs` into a fresh overlay leaves the six most
      recent ones, in order. */
  method LogEach(msgs: seq<string>) returns (kept: seq<string>)
    ensures kept == Recent(msgs, MaxLogLines)
  {
    var o := new DebugOverlay();
    var i := 0;
    while i < |msgs|
      invariant 0 <= i <= |msgs|
      invariant o.Valid() && o.debugLines == LogAll([], msgs[..i])
    {
      assert msgs[..i + 1][..i] == msgs[..i];
      o.Log(msgs[i]);
      i := i + 1;
    }
    assert msgs[..i] == msgs;
    LogAllKeepsMostRecent([], msgs);
    assert [] + msgs == msgs;
    kept := o.debugLines;
  }
}
