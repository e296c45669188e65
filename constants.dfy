/**
 * The fixed configuration of the feature extraction (services/backend/app/helper/constant.py):
 * the two face components with their landmark rectangles, pixel shifts and crop sizes,
 * the four quadrant names and the five per-quadrant aggregates.
 */
module Constants {
  /** Landmark indices (of the 68-point dlib model) that bound a component. */
  datatype ObjectRectangle = ObjectRectangle(xRight: nat, xLeft: nat, yHighest: nat, yLowest: nat)

  /** How far the crop origin moves left and up from the landmarks. */
  datatype PixelShifting = PixelShifting(pixelX: int, pixelY: int)

  /** The largest crop, before the image border cuts it. */
  datatype ObjectDimension = ObjectDimension(width: int, height: int)

  datatype ComponentInfo = ComponentInfo(
    objectName: string,
    objectRectangle: ObjectRectangle,
    pixelShifting: PixelShifting,
    objectDimension: ObjectDimension)

  /** `COMPONENTS_SETUP`, in its insertion order: the mouth first, then the eyebrows. */
  const COMPONENTS_SETUP: seq<(string, ComponentInfo)> := [
    ("mulut", ComponentInfo("mouth", ObjectRectangle(67, 48, 50, 58), PixelShifting(10, 10), ObjectDimension(70, 35))),
    ("alis", ComponentInfo("eyebrows", ObjectRectangle(26, 17, 19, 21), PixelShifting(5, 2), ObjectDimension(98, 14)))
  ]

  const BLOCKSIZE: nat := 7

  const QUADRAN_DIMENSIONS: seq<string> := ["Q1", "Q2", "Q3", "Q4"]

  const FRAMES_DATA_QUADRAN_COMPONENTS: seq<string> := ["sumX", "sumY", "Tetha", "Magnitude", "JumlahQuadran"]

  /** The component names, in order. */
  function ComponentNames(): (names: seq<string>)
    ensures names == ["mulut", "alis"]
  {
    [COMPONENTS_SETUP[0].0, COMPONENTS_SETUP[1].0]
  }
}
