/** engine/TerminalControl.hpp: the bookkeeping around the terminal. It caches the
    terminal size and detects resizes, keeps the current and previous key maps
    filled by `PollKeys`, and answers key queries. `PrintableChar` names a key
    code for the debug overlay. The `ioctl` size query and the non-blocking
    `getchar` are replaced by parameters: the size the terminal reports and the
    codes waiting on standard input. */
module TerminalControl {
  import opened DataTypes

  // ---- Decimal text, as `std::to_string` writes an `int` ----

  /** The character of one decimal digit. */
  function DigitChar(d: int): (c: char)
    requires 0 <= d < 10
    ensures '0' <= c <= '9'
  {
    (d + '0' as int) as char
  }

  /** The decimal digits of `n`, most significant first, with no leading zero. */
  function NatDigits(n: nat): (s: string)
    ensures 1 <= |s|
    ensures forall i :: 0 <= i < |s| ==> '0' <= s[i] <= '9'
    ensures |s| > 1 ==> s[0] != '0'
  {
    if n < 10 then [DigitChar(n)] else NatDigits(n / 10) + [DigitChar(n % 10)]
  }

  /** Reads a string of decimal digits back as a number: the partner of
      `NatDigits`. */
  function ParseDigits(s: string): nat
  {
    if |s| == 0 then 0
    else 10 * ParseDigits(s[..|s| - 1]) + (if '0' <= s[|s| - 1] <= '9' then s[|s| - 1] as int - '0' as int else 0)
  }

  /** Reading back what `NatDigits` wrote gives the number again. */
  lemma {:induction false} ParseNatDigits(n: nat)
    ensures ParseDigits(NatDigits(n)) == n
  {
    if n >= 10 {
      var s := NatDigits(n);
      assert s[..|s| - 1] == NatDigits(n / 10);
      ParseNatDigits(n / 10);
    }
  }

  /** `std::to_string(int)`: a minus sign before the digits of a negative value. */
  function IntToString(n: int): (s: string)
    ensures n < 0 <==> (|s| > 0 && s[0] == '-')
  {
    if n < 0 then "-" + NatDigits(-n) else NatDigits(n)
  }

  /** Reads the text `IntToString` writes. */
  function ParseInt(s: string): int
  {
    if |s| > 0 && s[0] == '-' then -(ParseDigits(s[1..]) as int) else ParseDigits(s)
  }

  /** `IntToString` is one-to-one: reading its text back gives the number. */
  lemma {:induction false} ParseIntToString(n: int)
    ensures ParseInt(IntToString(n)) == n
  {
    if n < 0 {
      ParseNatDigits(-n);
      assert IntToString(n)[1..] == NatDigits(-n);
    } else {
      ParseNatDigits(n);
    }
  }

  // ---- PrintableChar ----

  /** `PrintableChar`: a printable ASCII code is shown as itself, escape as
      `ESC`, and any other code as `0x` followed by its DECIMAL value. */
  function PrintableChar(ch: int): (s: string)
    ensures 32 <= ch < 127 ==> s == [ch as char]
    ensures ch == 27 ==> s == "ESC"
    ensures !(32 <= ch < 127) && ch != 27 ==> |s| > 2 && s[..2] == "0x"
  {
    if 32 <= ch < 127 then [ch as char]
    else if ch == 27 then "ESC"
    else "0x" + IntToString(ch)
  }

  /** The name of a non-printable code other than escape determines the code:
      the text after `0x` reads back, in decimal, as the code. */
  lemma {:induction false} PrintableCharDecodes(ch: int)
    requires !(32 <= ch < 127) && ch != 27
    ensures ParseInt(PrintableChar(ch)[2..]) == ch
  {
    assert PrintableChar(ch)[2..] == IntToString(ch);
    ParseIntToString(ch);
  }

  /** The prefix says hexadecimal but the digits are decimal: newline (10)
      is shown as `0x10`, the same text sixteen would have in hexadecimal. */
  lemma {:induction false} PrintableCharNewline()
    ensures PrintableChar(10) == "0x10"
    ensures PrintableChar(27) == "ESC"
    ensures PrintableChar(65) == "A"
  {
    assert NatDigits(1) == "1";
    assert NatDigits(10) == NatDigits(1) + [DigitChar(0)];
  }

  // ---- Reading the pending key codes ----

  /** Every code of `s` marked down. */
  function Marked(s: seq<int>): map<int, bool>
  {
    map k | k in s :: true
  }

  /** Marking the codes of `input[..i + 1]` is marking those of `input[..i]`
      and then `input[i]`. */
  lemma MarkOneMore(input: seq<int>, i: int)
    requires 0 <= i < |input|
    ensures Marked(input[..i + 1]) == Marked(input[..i])[input[i] := true]
  {
    assert input[..i + 1] == input[..i] + [input[i]];
  }

  /** How many codes `PollKeys` consumes: the position of the first `-1`
      (the end-of-input value of `getchar`), or the whole input. */
  function FirstEnd(input: seq<int>): (n: nat)
    ensures n <= |input|
    ensures forall j :: 0 <= j < n ==> input[j] != -1
    ensures n < |input| ==> input[n] == -1
  {
    if |input| == 0 || input[0] == -1 then 0 else 1 + FirstEnd(input[1..])
  }

  /** The key map `PollKeys` builds: every code read before the end, marked
      down. */
  function KeysRead(input: seq<int>): (keys: map<int, bool>)
    ensures forall k :: k in keys ==> keys[k]
  {
    Marked(input[..FirstEnd(input)])
  }

  /** A code is in the new key map exactly when it was read before the first
      `-1`; codes after it stay unread. */
  lemma {:induction false} KeysReadCharacterised(input: seq<int>, k: int)
    ensures k in KeysRead(input) <==> exists i :: 0 <= i < |input| && input[i] == k && forall j :: 0 <= j <= i ==> input[j] != -1
  {
    var n := FirstEnd(input);
    if k in KeysRead(input) {
      var i :| 0 <= i < n && input[..n][i] == k;
      assert input[i] == k;
    }
    if exists i :: 0 <= i < |input| && input[i] == k && forall j :: 0 <= j <= i ==> input[j] != -1 {
      var i :| 0 <= i < |input| && input[i] == k && forall j :: 0 <= j <= i ==> input[j] != -1;
      assert i < n;
      assert input[..n][i] == k;
    }
  }

  /** `map[k]` with `operator[]`'s default for a missing key: false. */
  function Lookup(m: map<int, bool>, k: int): (b: bool)
    ensures b ==> k in m
  {
    k in m && m[k]
  }

  /** The map after `operator[]` has looked `k` up: a missing key is inserted
      with the value false. */
  function Touched(m: map<int, bool>, k: int): (r: map<int, bool>)
    ensures k in r && r[k] == Lookup(m, k)
    ensures forall j :: j != k ==> (j in r <==> j in m)
    ensures forall j :: j in m ==> j in r && r[j] == m[j]
  {
    if k in m then m else m[k := false]
  }

  /** The cached terminal size, the last size a resize check saw, and the two
      key maps. */
  class Terminal {
    var termWidth: int
    var termHeight: int
    var lastWidth: int
    var lastHeight: int
    var tooSmall: bool
    var keyState: map<int, bool>
    var keyPrev: map<int, bool>

    /** The globals' initial values: no size read yet, and `-1` as the last
        seen size, which no real terminal reports. */
    constructor()
      ensures termWidth == 0 && termHeight == 0 && lastWidth == -1 && lastHeight == -1
      ensures !tooSmall && keyState == map[] && keyPrev == map[]
    {
      termWidth, termHeight := 0, 0;
      lastWidth, lastHeight := -1, -1;
      tooSmall := false;
      keyState, keyPrev := map[], map[];
    }

    /** `UpdateTerminalSize`, given the columns and rows the terminal reports:
        the screen is too small exactly when it is narrower than 80 columns or
        shorter than 24 rows. */
    method UpdateTerminalSize(cols: nat, rows: nat)
      modifies this
      ensures termWidth == cols && termHeight == rows
      ensures tooSmall <==> cols < ScreenWidth || rows < ScreenHeight
      ensures lastWidth == old(lastWidth) && lastHeight == old(lastHeight)
      ensures keyState == old(keyState) && keyPrev == old(keyPrev)
    {
      termWidth := cols;
      termHeight := rows;
      tooSmall := termWidth < ScreenWidth || termHeight < ScreenHeight;
    }

    /** `DidTerminalResize`: true exactly when the cached size differs from the
        one the previous call recorded; records the cached size. */
    method DidTerminalResize() returns (changed: bool)
      modifies this
      ensures changed <==> old(termWidth) != old(lastWidth) || old(termHeight) != old(lastHeight)
      ensures lastWidth == termWidth && lastHeight == termHeight
      ensures termWidth == old(termWidth) && termHeight == old(termHeight) && tooSmall == old(tooSmall)
      ensures keyState == old(keyState) && keyPrev == old(keyPrev)
    {
      changed := termWidth != lastWidth || termHeight != lastHeight;
      lastWidth := termWidth;
      lastHeight := termHeight;
    }

    /** `PollKeys`, given the codes waiting on standard input: the current map
        becomes the previous one, and the new current map holds exactly the
        codes read before the first `-1`. */
    method PollKeys(input: seq<int>)
      modifies this
      ensures keyPrev == old(keyState)
      ensures keyState == KeysRead(input)
      ensures termWidth == old(termWidth) && termHeight == old(termHeight) && tooSmall == old(tooSmall)
      ensures lastWidth == old(lastWidth) && lastHeight == old(lastHeight)
    {
      keyPrev := keyState;
      keyState := map[];
      var n := FirstEnd(input);
      var i := 0;
      while i < |input| && input[i] != -1
        invariant 0 <= i <= n
        invariant keyState == Marked(input[..i])
        invariant keyPrev == old(keyState)
        invariant termWidth == old(termWidth) && termHeight == old(termHeight) && tooSmall == old(tooSmall)
        invariant lastWidth == old(lastWidth) && lastHeight == old(lastHeight)
      {
        MarkOneMore(input, i);
        keyState := keyState[input[i] := true];
        i := i + 1;
      }
    }

    /** `IsKeyPressed`: the key has an entry in the current map, whatever its
        value. */
    predicate IsKeyPressed(k: int)
      reads this
    {
      k in keyState
    }

    /** `WasKeyJustPressed`: down now and not down before. Looking the key up
        inserts a false entry into the current map when it is missing, and the
        previous map is looked up (and possibly extended) only when the key is
        down now. */
    method WasKeyJustPressed(k: int) returns (r: bool)
      modifies this
      ensures r <==> Lookup(old(keyState), k) && !Lookup(old(keyPrev), k)
      ensures keyState == Touched(old(keyState), k)
      ensures keyPrev == if Lookup(old(keyState), k) then Touched(old(keyPrev), k) else old(keyPrev)
      ensures IsKeyPressed(k)
      ensures termWidth == old(termWidth) && termHeight == old(termHeight) && tooSmall == old(tooSmall)
      ensures lastWidth == old(lastWidth) && lastHeight == old(lastHeight)
    {
      var now := Lookup(keyState, k);
      keyState := Touched(keyState, k);
      if now {
        var before := Lookup(keyPrev, k);
        keyPrev := Touched(keyPrev, k);
        r := !before;
      } else {
        r := false;
      }
    }

    /** `WasKeyJustReleased`: not down now but down before, with the same
        insertions: the previous map is looked up only when the key is not down
        now. */
    method WasKeyJustReleased(k: int) returns (r: bool)
      modifies this
      ensures r <==> !Lookup(old(keyState), k) && Lookup(old(keyPrev), k)
      ensures keyState == Touched(old(keyState), k)
      ensures keyPrev == if Lookup(old(keyState), k) then old(keyPrev) else Touched(old(keyPrev), k)
      ensures IsKeyPressed(k)
      ensures termWidth == old(termWidth) && termHeight == old(termHeight) && tooSmall == old(tooSmall)
      ensures lastWidth == old(lastWidth) && lastHeight == old(lastHeight)
    {
      var now := Lookup(keyState, k);
      keyState := Touched(keyState, k);
      if now {
        r := false;
      } else {
        var before := Lookup(keyPrev, k);
        keyPrev := Touched(keyPrev, k);
        r := before;
      }
    }
  }

  // ---- Consequences for the main loop ----

  /** Because the last seen size starts at `-1`, the first resize check after
      start-up reports a change, and an immediate second check does not. */
  method FirstResizeCheck(cols: nat, rows: nat) returns (first: bool, second: bool)
    ensures first && !second
  {
    var t := new Terminal();
    t.UpdateTerminalSize(cols, rows);
    first := t.DidTerminalResize();
    second := t.DidTerminalResize();
  }

  /** A size change between two checks is reported, whichever dimension moved. */
  method ResizeReported(cols: nat, rows: nat, cols2: nat, rows2: nat) returns (changed: bool)
    ensures changed <==> cols != cols2 || rows != rows2
  {
    var t := new Terminal();
    t.UpdateTerminalSize(cols, rows);
    var _ := t.DidTerminalResize();
    t.UpdateTerminalSize(cols2, rows2);
    changed := t.DidTerminalResize();
  }

  /** A key read in one poll and absent from the poll before counts as just
      pressed; in the following empty poll it counts as just released. A key
      can never be both at once. */
  method PressThenRelease(k: int) returns (pressed: bool, released: bool, pressedLater: bool, releasedLater: bool)
    requires k != -1
    ensures pressed && !released
    ensures !pressedLater && releasedLater
  {
    var t := new Terminal();
    t.PollKeys([k, -1]);
    assert FirstEnd([k, -1]) == 1 && [k, -1][..1] == [k];
    pressed := t.WasKeyJustPressed(k);
    released := t.WasKeyJustReleased(k);
    t.PollKeys([-1]);
    assert FirstEnd([-1]) == 0;
    pressedLater := t.WasKeyJustPressed(k);
    releasedLater := t.WasKeyJustReleased(k);
  }

  /** Querying a key that is not down still leaves an entry for it, so
      `IsKeyPressed` reports it until the next poll clears the map. */
  method QueryMarksKeyPresent(k: int) returns (before: bool, justPressed: bool, after: bool, afterPoll: bool)
    ensures !before && !justPressed && after && !afterPoll
  {
    var t := new Terminal();
    before := t.IsKeyPressed(k);
    justPressed := t.WasKeyJustPressed(k);
    after := t.IsKeyPressed(k);
    t.PollKeys([]);
    afterPoll := t.IsKeyPressed(k);
  }
}
