/** The few JavaFX animation objects the core touches, reduced to the state the core
    reads or writes: a scene node's opacity, key frames, and timelines. */
module Animation {

  /** A scene node; the core only sets its opacity. */
  class Node {
    var opacity: real

    constructor ()
      ensures opacity == 1.0
    {
      opacity := 1.0;
    }
  }

  /** A key frame at `millis` milliseconds that drives `target`'s opacity to `opacity`. */
  datatype KeyFrame = KeyFrame(millis: nat, target: Node, opacity: real)

  /** A timeline: its target frame rate and its list of key frames. */
  class Timeline {
    const targetFramerate: real
    var keyFrames: seq<KeyFrame>

    constructor (targetFramerate: real)
      ensures this.targetFramerate == targetFramerate && keyFrames == []
    {
      this.targetFramerate := targetFramerate;
      keyFrames := [];
    }

    /** Replaces the whole key-frame list (JavaFX's `getKeyFrames().setAll`). */
    method SetAll(frames: seq<KeyFrame>)
      modifies this
      ensures keyFrames == frames
    {
      keyFrames := frames;
    }
  }
}
