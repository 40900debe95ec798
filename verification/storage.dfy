/**
 * Where a captured frame is written: `data/door_open/open_{n}.jpg` or
 * `data/door_closed/closed_{n}.jpg`, and the parser that reads such a
 * path back.
 */
module Storage {
  import opened Common
  import Decimal

  /** The two door states the recorder knows. */
  datatype Label = Open | Closed

  /** The label that is not `l`. */
  function Other(l: Label): Label {
    match l
    case Open => Closed
    case Closed => Open
  }

  /** One saved image: its label and the counter value used in its file name. */
  datatype SavedImage = SavedImage(door: Label, index: nat)

  const OpenStem: string := "data/door_open/open_"
  const ClosedStem: string := "data/door_closed/closed_"
  const Extension: string := ".jpg"

  /** The directory and file-name stem shared by every image of label `l`. */
  function Stem(l: Label): string {
    match l
    case Open => OpenStem
    case Closed => ClosedStem
  }

  /** The path handed to `cv2.imwrite` for `img`. */
  function Path(img: SavedImage): string {
    Stem(img.door) + Decimal.FromNat(img.index) + Extension
  }

  /** The counter written between `stem` and the extension of `p`, if `p` has that shape. */
  function ParseIndex(stem: string, p: string): (r: Option<nat>)
    ensures r.Some? ==> |p| >= |stem| + |Extension| && p[..|stem|] == stem
  {
    if |p| >= |stem| + |Extension|
       && p[..|stem|] == stem
       && p[|p| - |Extension|..] == Extension
       && Decimal.IsCanonical(p[|stem|..|p| - |Extension|])
    then Some(Decimal.ToNat(p[|stem|..|p| - |Extension|]))
    else None
  }

  /** The image a path names, or `None` for a path no capture writes. */
  function ParsePath(p: string): Option<SavedImage> {
    match ParseIndex(OpenStem, p)
    case Some(n) => Some(SavedImage(Open, n))
    case None =>
      match ParseIndex(ClosedStem, p)
      case Some(n) => Some(SavedImage(Closed, n))
      case None => None
  }

  lemma ParseIndexOfStem(stem: string, n: nat)
    ensures ParseIndex(stem, stem + Decimal.FromNat(n) + Extension) == Some(n)
  {
    var d := Decimal.FromNat(n);
    var p := stem + d + Extension;
    assert p[..|stem|] == stem;
    assert p[|p| - |Extension|..] == Extension;
    assert p[|stem|..|p| - |Extension|] == d;
    Decimal.ToNatFromNat(n);
  }

  /** Every written path parses back to the image it was written for. */
  lemma ParsePathOfPath(img: SavedImage)
    ensures ParsePath(Path(img)) == Some(img)
  {
    var p := Path(img);
    ParseIndexOfStem(Stem(img.door), img.index);
    if img.door == Closed {
      // "data/door_" is shared; the stems part at position 10 ('o' against 'c').
      assert p[10] == 'c' && OpenStem[10] == 'o';
      assert ParseIndex(OpenStem, p) == None;
    }
  }

  /** Every path that parses is exactly the path written for the parsed image. */
  lemma PathOfParsePath(p: string)
    ensures ParsePath(p).Some? ==> Path(ParsePath(p).value) == p
  {
    if ParsePath(p).Some? {
      var img := ParsePath(p).value;
      var stem := Stem(img.door);
      assert ParseIndex(stem, p).Some?;
      var mid := p[|stem|..|p| - |Extension|];
      Decimal.FromNatToNat(mid);
      assert p == stem + mid + Extension;
    }
  }

  /**
   * Distinct images never share a file, so within one process lifetime no
   * capture overwrites another; the counters restart at zero with the process.
   */
  lemma PathInjective(a: SavedImage, b: SavedImage)
    ensures Path(a) == Path(b) ==> a == b
  {
    ParsePathOfPath(a);
    ParsePathOfPath(b);
  }

  /** The first open and closed images land where the source writes them. */
  lemma FirstPaths()
    ensures Path(SavedImage(Open, 1)) == "data/door_open/open_1.jpg"
    ensures Path(SavedImage(Closed, 12)) == "data/door_closed/closed_12.jpg"
  {
  }
}
