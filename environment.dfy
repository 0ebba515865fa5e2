/**
 * Environments robots can sense (gridsim/environment.py).
 *
 * The null environment answers black everywhere; an image environment is a
 * W x H grid of RGB colours that answers "no data" outside the grid. Both carry
 * a flag recording whether a viewer has taken them over for drawing.
 */
module Environments {
  import opened Wrappers

  newtype byte = x: int | 0 <= x < 256

  datatype RGB = RGB(r: byte, g: byte, b: byte)

  const Black: RGB := RGB(0, 0, 0)

  /** A grid of `h` rows of `w` colours, indexed `[y][x]`. */
  predicate IsImage(pixels: seq<seq<RGB>>, w: nat, h: nat)
  {
    |pixels| == h && forall y :: 0 <= y < h ==> |pixels[y]| == w
  }

  /** What the environment samples from: nothing, or an image already scaled to the world's grid. */
  datatype Field =
    | NoField
    | ImageField(width: nat, height: nat, pixels: seq<seq<RGB>>)

  predicate FieldOk(f: Field)
  {
    f.ImageField? ==> IsImage(f.pixels, f.width, f.height)
  }

  datatype EnvError = NotInViewer   // ValueError from get_viewer_img

  class Environment {
    const field: Field
    var isInViewer: bool
    /** The viewer's picture of the field, abstracted by its size in pixels. */
    var viewerSize: (int, int)

    /** `Environment()`: the null environment, not yet in a viewer. */
    constructor Null()
      ensures field == NoField && !isInViewer && viewerSize == (0, 0)
    {
      field := NoField;
      isInViewer := false;
      viewerSize := (0, 0);
    }

    /** `ImageEnvironment(...)`, given the image already resized to the `w` x `h` grid. */
    constructor Image(pixels: seq<seq<RGB>>, w: nat, h: nat)
      requires IsImage(pixels, w, h)
      ensures field == ImageField(w, h, pixels) && FieldOk(field)
      ensures !isInViewer && viewerSize == (0, 0)
    {
      field := ImageField(w, h, pixels);
      isInViewer := false;
      viewerSize := (0, 0);
    }

    /** `get(pos)`: black everywhere for the null environment; for an image, the pixel in bounds and no data outside. */
    function Get(x: int, y: int): (c: Option<RGB>)
      requires FieldOk(field)
      ensures field.NoField? ==> c == Some(Black)
      ensures field.ImageField? ==> (c.Some? <==> 0 <= x < field.width && 0 <= y < field.height)
      ensures field.ImageField? && c.Some? ==> c.value == field.pixels[y][x]
    {
      match field
      case NoField => Some(Black)
      case ImageField(w, h, pixels) =>
        if 0 <= x < w && 0 <= y < h then Some(pixels[y][x]) else None
    }

    /** `__bool__`: false for the null environment, true for an image. */
    predicate Truthy()
    {
      field.ImageField?
    }

    /** `add_to_viewer(window_dim)`: the flag goes up and the picture takes the window's size. */
    method AddToViewer(windowDim: (int, int))
      modifies this
      ensures isInViewer && viewerSize == windowDim
    {
      isInViewer := true;
      viewerSize := windowDim;
    }

    /** `get_viewer_img()`: the picture once in a viewer, a ValueError before. */
    method GetViewerImg() returns (r: Result<(int, int), EnvError>)
      ensures isInViewer ==> r == Success(viewerSize)
      ensures !isInViewer ==> r == Failure(NotInViewer)
    {
      if isInViewer {
        r := Success(viewerSize);
      } else {
        r := Failure(NotInViewer);
      }
    }
  }

  /** Scenario: a uniform 10 x 10 field answers its colour inside and no data outside. */
  lemma UniformFieldScenario(e: Environment)
    requires e.field.ImageField? && IsImage(e.field.pixels, 10, 10)
    requires e.field.width == 10 && e.field.height == 10
    requires forall y, x :: 0 <= y < 10 && 0 <= x < 10 ==> e.field.pixels[y][x] == RGB(128, 64, 32)
    ensures e.Get(5, 5) == Some(RGB(128, 64, 32))
    ensures e.Get(15, 5) == None
  {
  }

  /** `Environment.__bool__`: the null environment is falsy, and it answers black everywhere. */
  lemma NullIsFalsy(e: Environment)
    requires e.field == NoField
    ensures !e.Truthy()
    ensures forall x, y :: e.Get(x, y) == Some(Black)
  {
  }

  /** `ImageEnvironment.__bool__`: an image environment is truthy, and it is the one that can answer no data. */
  lemma ImageIsTruthy(e: Environment)
    requires e.field.ImageField? && FieldOk(e.field)
    ensures e.Truthy()
    ensures e.Get(-1, 0) == None && e.Get(e.field.width, 0) == None
  {
  }

  /** The viewer flag starts down and is up after `add_to_viewer`, for both variants; only then is the picture available. */
  method ViewerFlagScenario(pixels: seq<seq<RGB>>, w: nat, h: nat, windowDim: (int, int))
    requires IsImage(pixels, w, h)
  {
    var nullEnv := new Environment.Null();
    var imageEnv := new Environment.Image(pixels, w, h);
    assert !nullEnv.Truthy() && imageEnv.Truthy();
    var before := imageEnv.GetViewerImg();
    assert before == Failure(NotInViewer);
    nullEnv.AddToViewer(windowDim);
    imageEnv.AddToViewer(windowDim);
    var after := imageEnv.GetViewerImg();
    assert nullEnv.isInViewer && after == Success(windowDim);
  }
}
