/**
 * `Alchemy::Picture::CloudinaryUrl`: the same transformation builder as the
 * storage adapter's, fed from a picture variant's options, with the secure
 * flag taken from the call's parameters.
 */
module PictureCloudinaryUrl {
  import opened Wrappers
  import opened RubyCore
  import opened TransformTypes
  import StorageAdapter = StorageAdapterCloudinaryUrl

  /** The parameters of `call`; only `secure` is read. */
  datatype Params = Params(secure: Option<bool>)

  /** `crop_mode`, as in the storage adapter. */
  function CropMode(o: Options): (r: string)
    ensures r == StorageAdapter.CropMode(o)
  {
    if Truthy(o.crop) then "fill"
    else if Truthy(o.upsample) then "fit" else "limit"
  }

  /** `crop_coordinates`, as in the storage adapter. */
  function CropCoordinates(o: Options): (r: Coordinates)
    ensures r == StorageAdapter.CropCoordinates(o)
  {
    var fromParts, sizeParts := Split(ToS(o.cropFrom), 'x'), Split(ToS(o.cropSize), 'x');
    var x, y := Nth(fromParts, 0), Nth(fromParts, 1);
    var sizeX, sizeY := Nth(sizeParts, 0), Nth(sizeParts, 1);
    var cx, cy := RubyRound(NilToI(x) as real + NilToF(sizeX) / 2.0),
                  RubyRound(NilToI(y) as real + NilToF(sizeY) / 2.0);
    assert cx == StorageAdapter.RoundedCentre(fromParts, sizeParts, 0);
    assert cy == StorageAdapter.RoundedCentre(fromParts, sizeParts, 1);
    Coordinates(cx, cy)
  }

  /** `crop_transformation`, as in the storage adapter. */
  function CropTransformation(o: Options): (r: Option<TransformOp>)
    ensures r == StorageAdapter.CropTransformation(o)
  {
    if Truthy(o.crop) && Present(o.cropFrom) then
      Some(CropOp("crop", "xy_center", CropCoordinates(o).x, CropCoordinates(o).y, o.cropSize))
    else None
  }

  /** `resize_transformation`, as in the storage adapter. */
  function ResizeTransformation(o: Options): (r: Option<TransformOp>)
    ensures r == StorageAdapter.ResizeTransformation(o)
  {
    if o.size.Some? then Some(ResizeOp(CropMode(o), o.size)) else None
  }

  /**
   * `transformations`: for equal options the very list the storage adapter
   * builds, so the crop entry, when present, comes first.
   */
  function Transformations(o: Options): (r: seq<TransformOp>)
    ensures r == StorageAdapter.Transformations(o)
    ensures |r| == 2 ==> r[0].CropOp? && r[1].ResizeOp?
  {
    Compact([CropTransformation(o), ResizeTransformation(o)])
  }

  /** The URL builder for one picture variant; the picture itself is left out. */
  class CloudinaryUrl {
    /** The variant's `@options`, which `call` reads by reflection. */
    const variantOptions: Options
    /** `@options`, `nil` until `call` stores them. */
    var options: Option<Options>

    constructor (variantOptions: Options)
      ensures this.variantOptions == variantOptions && options == None
    {
      this.variantOptions := variantOptions;
      options := None;
    }

    /**
     * `call`: the transformations come from the variant's options alone;
     * the parameters decide only whether the URL is secure.
     */
    method Call(params: Params) returns (request: RemoteUrlRequest)
      modifies this
      ensures options == Some(variantOptions)
      ensures request.transformation == Transformations(variantOptions)
      ensures request.secure == Truthy(params.secure)
    {
      options := Some(variantOptions);
      request := RemoteUrlRequest(Transformations(variantOptions), Truthy(params.secure));
    }
  }
}
