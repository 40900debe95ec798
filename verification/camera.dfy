/**
 * The camera as the feeds see it: the sequence of results of successive
 * `camera.read()` calls, each a frame or a failed read.
 */
module Camera {
  import opened Common

  /** An image as the camera delivers it: height x width pixels of three 8-bit channels. */
  datatype Frame = Frame(height: nat, width: nat, pixels: seq<byte>)

  /** The position of the first failed read, or the number of results if none fails. */
  function FirstFailure(results: seq<Option<Frame>>): (k: nat)
    ensures k <= |results|
    ensures forall i :: 0 <= i < k ==> results[i].Some?
    ensures k < |results| ==> results[k].None?
  {
    if results == [] || results[0].None? then 0 else 1 + FirstFailure(results[1..])
  }

  /** The frames a feed loop receives before it breaks out on the first failed read. */
  function Delivered(results: seq<Option<Frame>>): (frames: seq<Frame>)
    ensures |frames| == FirstFailure(results)
    ensures forall i :: 0 <= i < |frames| ==> results[i] == Some(frames[i])
  {
    if results == [] || results[0].None? then [] else [results[0].value] + Delivered(results[1..])
  }
}
