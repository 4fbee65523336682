/** engine/FrameBuffer.hpp: the character grid every renderer draws into,
    `char fb[screen_height][screen_width]`, and its clearing loop. The grid
    is an `array2<char>` indexed `fb[row, column]`. */
module FrameBuffer {
  import opened DataTypes

  /** The grid has the fixed screen dimensions: 24 rows of 80 columns. */
  predicate ScreenSized(fb: array2<char>)
  {
    fb.Length0 == ScreenHeight && fb.Length1 == ScreenWidth
  }

  /** Every cell holds a space. */
  predicate Blank(fb: array2<char>)
    reads fb
  {
    forall r, c :: 0 <= r < fb.Length0 && 0 <= c < fb.Length1 ==> fb[r, c] == ' '
  }

  /** `ClearFramebuffer`: writes a space into every cell, row by row. The result
      does not depend on what the grid held before, so clearing twice is the
      same as clearing once. */
  method ClearFramebuffer(fb: array2<char>)
    requires ScreenSized(fb)
    modifies fb
    ensures Blank(fb)
  {
    var y := 0;
    while y < ScreenHeight
      invariant 0 <= y <= ScreenHeight
      invariant forall r, c :: 0 <= r < y && 0 <= c < ScreenWidth ==> fb[r, c] == ' '
      invariant forall r, c :: y <= r < ScreenHeight && 0 <= c < ScreenWidth ==> fb[r, c] == old(fb[r, c])
    {
      var x := 0;
      while x < ScreenWidth
        invariant 0 <= x <= ScreenWidth
        invariant forall r, c :: 0 <= r < y && 0 <= c < ScreenWidth ==> fb[r, c] == ' '
        invariant forall c :: 0 <= c < x ==> fb[y, c] == ' '
        invariant forall r, c :: y < r < ScreenHeight && 0 <= c < ScreenWidth ==> fb[r, c] == old(fb[r, c])
      {
        fb[y, x] := ' ';
        x := x + 1;
      }
      y := y + 1;
    }
  }
}
