/** The engine's configuration record: frame-rate bounds, window size and flags, and the
    style sheets, with the validation its setters perform. */
module Config {
  import opened Exceptions

  /** The values of every setting, as one record. */
  datatype Settings = Settings(fps: int, fpsMin: int, title: string, css: seq<string>,
                               width: real, height: real, canResize: bool, debug: bool,
                               inBeforeOut: bool)

  class EngineConfig {
    /** Frames per second while focused, and while unfocused. */
    var fps: int
    var fpsMin: int
    var title: string
    /** Style-sheet URLs, in the order they were added. */
    var css: seq<string>
    var width: real
    var height: real
    var canResize: bool
    var debug: bool
    /** Whether a new view is inserted before the old one's hide transition runs. */
    var inBeforeOut: bool

    ghost predicate Valid()
      reads this
    {
      fps >= 1 && fpsMin >= 1
    }

    /** The defaults: 60/12 frames per second, an 850 x 620 resizable window, no debug
        overlay, in-before-out switching, no style sheets. */
    constructor ()
      ensures Valid()
      ensures Snapshot() == Settings(60, 12, "夜雨游戏引擎", [], 850.0, 620.0, true, false, true)
    {
      fps, fpsMin := 60, 12;
      title := "夜雨游戏引擎";
      css := [];
      width, height := 850.0, 620.0;
      canResize, debug, inBeforeOut := true, false, true;
    }

    /** All the settings at once, for stating what a setter leaves alone. */
    function Snapshot(): Settings
      reads this
    {
      Settings(fps, fpsMin, title, css, width, height, canResize, debug, inBeforeOut)
    }

    /** Sets the focused frame rate; below 1 is refused and nothing changes. */
    method SetFPS(fps: int) returns (outcome: Outcome)
      modifies this
      ensures old(Valid()) ==> Valid()
      ensures fps < 1 ==> outcome == Thrown(IllegalArgument) && Snapshot() == old(Snapshot())
      ensures fps >= 1 ==> outcome == Normal && Snapshot() == old(Snapshot()).(fps := fps)
    {
      if fps < 1 {
        return Thrown(IllegalArgument);
      }
      this.fps := fps;
      outcome := Normal;
    }

    /** Sets the unfocused frame rate; below 1 is refused and nothing changes. */
    method SetFPSMin(fpsMin: int) returns (outcome: Outcome)
      modifies this
      ensures old(Valid()) ==> Valid()
      ensures fpsMin < 1 ==> outcome == Thrown(IllegalArgument) && Snapshot() == old(Snapshot())
      ensures fpsMin >= 1 ==> outcome == Normal && Snapshot() == old(Snapshot()).(fpsMin := fpsMin)
    {
      if fpsMin < 1 {
        return Thrown(IllegalArgument);
      }
      this.fpsMin := fpsMin;
      outcome := Normal;
    }

    /** Appends the given style sheets after those already added. */
    method SetCSS(sheets: seq<string>)
      modifies this
      ensures Valid() == old(Valid())
      ensures Snapshot() == old(Snapshot()).(css := old(css) + sheets)
      ensures |css| == |old(css)| + |sheets| && css[..|old(css)|] == old(css)
    {
      css := css + sheets;
    }

    /** Sets the window size; nothing else changes. */
    method SetSize(width: real, height: real)
      modifies this
      ensures Valid() == old(Valid())
      ensures Snapshot() == old(Snapshot()).(width := width, height := height)
    {
      this.width := width;
      this.height := height;
    }

    method SetWidth(width: real)
      modifies this
      ensures Valid() == old(Valid())
      ensures Snapshot() == old(Snapshot()).(width := width)
    {
      this.width := width;
    }

    method SetHeight(height: real)
      modifies this
      ensures Valid() == old(Valid())
      ensures Snapshot() == old(Snapshot()).(height := height)
    {
      this.height := height;
    }

    method SetTitle(title: string)
      modifies this
      ensures Valid() == old(Valid())
      ensures Snapshot() == old(Snapshot()).(title := title)
    {
      this.title := title;
    }

    method SetCanResize(canResize: bool)
      modifies this
      ensures Valid() == old(Valid())
      ensures Snapshot() == old(Snapshot()).(canResize := canResize)
    {
      this.canResize := canResize;
    }

    method SetDebug(debug: bool)
      modifies this
      ensures Valid() == old(Valid())
      ensures Snapshot() == old(Snapshot()).(debug := debug)
    {
      this.debug := debug;
    }

    method SetInBeforeOut(inBeforeOut: bool)
      modifies this
      ensures Valid() == old(Valid())
      ensures Snapshot() == old(Snapshot()).(inBeforeOut := inBeforeOut)
    {
      this.inBeforeOut := inBeforeOut;
    }
  }
}
