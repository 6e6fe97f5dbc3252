/** A page of the game: the show and hide timelines the engine plays when it switches
    pages. Both are absent (null) until their setter is first called. */
module Views {
  import opened Animation

  class View {
    var showTimeline: Timeline?
    var hideTimeline: Timeline?

    constructor ()
      ensures showTimeline == null && hideTimeline == null
    {
      showTimeline, hideTimeline := null, null;
    }

    /** Creates the show timeline (at 60 frames per second) on first use, then replaces its
        key frames with `frames`. The hide timeline is untouched. */
    method SetShowKeyFrames(frames: seq<KeyFrame>)
      modifies this, showTimeline
      ensures showTimeline != null && showTimeline.keyFrames == frames
      ensures old(showTimeline) != null ==> showTimeline == old(showTimeline)
      ensures old(showTimeline) == null ==> fresh(showTimeline) && showTimeline.targetFramerate == 60.0
      ensures hideTimeline == old(hideTimeline)
      ensures hideTimeline != null && hideTimeline != showTimeline ==> hideTimeline.keyFrames == old(hideTimeline.keyFrames)
    {
      if showTimeline == null {
        showTimeline := new Timeline(60.0);
      }
      showTimeline.SetAll(frames);
    }

    /** Creates the hide timeline on first use, then replaces its key frames with `frames`.
        The show timeline is untouched. */
    method SetHideKeyFrames(frames: seq<KeyFrame>)
      modifies this, hideTimeline
      ensures hideTimeline != null && hideTimeline.keyFrames == frames
      ensures old(hideTimeline) != null ==> hideTimeline == old(hideTimeline)
      ensures old(hideTimeline) == null ==> fresh(hideTimeline) && hideTimeline.targetFramerate == 60.0
      ensures showTimeline == old(showTimeline)
      ensures showTimeline != null && showTimeline != hideTimeline ==> showTimeline.keyFrames == old(showTimeline.keyFrames)
    {
      if hideTimeline == null {
        hideTimeline := new Timeline(60.0);
      }
      hideTimeline.SetAll(frames);
    }
  }
}
