/**
 * `Alchemy::Picture::CloudinaryUrl` as a module mixed into the picture:
 * the older form of the builder, whose `url` reads the secure flag from the
 * same options bag and whose resize step chooses the crop mode inline.
 */
module PictureCloudinaryUrlMixin {
  import opened Wrappers
  import opened RubyCore
  import opened TransformTypes
  import StorageAdapter = StorageAdapterCloudinaryUrl

  /** `crop_coordinates`, as in the storage adapter. */
  function CropCoordinates(o: Options): (r: Coordinates)
    ensures r == StorageAdapter.CropCoordinates(o)
  {
    var fromParts, sizeParts := Split(ToS(o.cropFrom), 'x'), Split(ToS(o.cropSize), 'x');
    var x, y := Nth(fromParts, 0), Nth(fromParts, 1);
    var sizeX, sizeY := Nth(sizeParts, 0), Nth(sizeParts, 1);
    var cx, cy := RubyRound(NilToI(x) as real + NilToF(sizeX) / 2.0),
                  RubyRound(NilToI(y) as real + NilToF(sizeY) / 2.0);
    assert cx == StorageAdapter.RoundedCentre(fromParts, sizeParts, 0);
    assert cy == StorageAdapter.RoundedCentre(fromParts, sizeParts, 1);
    Coordinates(cx, cy)
  }

  /** `crop_transformation`, as in the storage adapter. */
  function CropTransformation(o: Options): (r: Option<TransformOp>)
    ensures r == StorageAdapter.CropTransformation(o)
  {
    if Truthy(o.crop) && Present(o.cropFrom) then
      Some(CropOp("crop", "xy_center", CropCoordinates(o).x, CropCoordinates(o).y, o.cropSize))
    else None
  }

  /**
   * `resize_transformation`: the crop mode chosen inline (fill, else fit,
   * else limit) agrees with the storage adapter's `crop_mode`.
   */
  function ResizeTransformation(o: Options): (r: Option<TransformOp>)
    ensures r == StorageAdapter.ResizeTransformation(o)
    ensures r.Some? ==> r.value.crop in ResizeModes
  {
    var cropMode := if Truthy(o.crop) then "fill" else if Truthy(o.upsample) then "fit" else "limit";
    if o.size.Some? then Some(ResizeOp(cropMode, o.size)) else None
  }

  /** `transformations`: for equal options the very list the storage adapter builds. */
  function Transformations(o: Options): (r: seq<TransformOp>)
    ensures r == StorageAdapter.Transformations(o)
    ensures |r| == 2 ==> r[0].CropOp? && r[1].ResizeOp?
  {
    Compact([CropTransformation(o), ResizeTransformation(o)])
  }

  /** The picture the module is mixed into; its `image_file` is left out. */
  class Picture {
    /** `@options`, `nil` until `url` stores them. */
    var options: Option<Options>

    constructor ()
      ensures options == None
    {
      options := None;
    }

    /** `url`: transformations and the secure flag both come from the options bag. */
    method Url(options: Options) returns (request: RemoteUrlRequest)
      modifies this
      ensures this.options == Some(options)
      ensures request.transformation == Transformations(options)
      ensures request.secure == Truthy(options.secure)
    {
      this.options := Some(options);
      request := RemoteUrlRequest(Transformations(options), Truthy(options.secure));
    }
  }
}
