/**
 * `Alchemy::StorageAdapter::Dragonfly::CloudinaryUrl`: renders a picture
 * variant by handing Cloudinary an ordered list of crop and resize
 * transformations, always over HTTPS.
 */
module StorageAdapterCloudinaryUrl {
  import opened Wrappers
  import opened RubyCore
  import opened TransformTypes

  /** `crop_mode`: fill when cropping, else fit when upsampling, else limit. */
  function CropMode(o: Options): (r: string)
    ensures r in ResizeModes
    ensures r == "fill" <==> Truthy(o.crop)
    ensures r == "fit" <==> !Truthy(o.crop) && Truthy(o.upsample)
    ensures r == "limit" <==> !Truthy(o.crop) && !Truthy(o.upsample)
  {
    if Truthy(o.crop) then "fill"
    else if Truthy(o.upsample) then "fit" else "limit"
  }

  /**
   * `crop_coordinates`: both strings split on `x`, the offsets read with
   * `to_i`, the sizes with `to_f`, and `offset + size / 2` rounded.
   */
  function CropCoordinates(o: Options): (r: Coordinates)
    ensures r == CropCentre(o)
  {
    var from, size := ToS(o.cropFrom), ToS(o.cropSize);
    var fromParts, sizeParts := Split(from, 'x'), Split(size, 'x');
    CentreOfSplit(from, size);
    Coordinates(RoundedCentre(fromParts, sizeParts, 0), RoundedCentre(fromParts, sizeParts, 1))
  }

  /** `(x.to_i + size_x.to_f / 2).round` for the `k`-th pieces of the split strings. */
  function RoundedCentre(fromParts: seq<string>, sizeParts: seq<string>, k: nat): (r: int)
    ensures r == CentreCoordinate(NilToI(Nth(fromParts, k)), NilToI(Nth(sizeParts, k)))
  {
    NilToFIsNilToI(Nth(sizeParts, k));
    RoundHalfSum(NilToI(Nth(fromParts, k)), NilToI(Nth(sizeParts, k)));
    RubyRound(NilToI(Nth(fromParts, k)) as real + NilToF(Nth(sizeParts, k)) / 2.0)
  }

  /** What `crop_coordinates` computes from the split strings is the centre, a half rounded up. */
  lemma CentreOfSplit(from: string, size: string)
    ensures RoundedCentre(Split(from, 'x'), Split(size, 'x'), 0)
            == CentreCoordinate(FirstComponent(from), FirstComponent(size))
    ensures RoundedCentre(Split(from, 'x'), Split(size, 'x'), 1)
            == CentreCoordinate(SecondComponent(from), SecondComponent(size))
  {
    CentreOfFirst(from, size);
    CentreOfSecond(from, size);
  }

  lemma CentreOfFirst(from: string, size: string)
    ensures RoundedCentre(Split(from, 'x'), Split(size, 'x'), 0)
            == CentreCoordinate(FirstComponent(from), FirstComponent(size))
  {
    SplitFirstNumber(from, 'x');
    SplitFirstNumber(size, 'x');
    RoundedCentreOf(Split(from, 'x'), Split(size, 'x'), 0, FirstComponent(from), FirstComponent(size));
  }

  lemma CentreOfSecond(from: string, size: string)
    ensures RoundedCentre(Split(from, 'x'), Split(size, 'x'), 1)
            == CentreCoordinate(SecondComponent(from), SecondComponent(size))
  {
    SplitSecondNumber(from, 'x');
    SplitSecondNumber(size, 'x');
    assert NilToI(Nth(Split(from, 'x'), 1)) == SecondComponent(from);
    assert NilToI(Nth(Split(size, 'x'), 1)) == SecondComponent(size);
    RoundedCentreOf(Split(from, 'x'), Split(size, 'x'), 1, SecondComponent(from), SecondComponent(size));
  }

  /** The rounded centre of pieces that read as `a` and `c`. */
  lemma RoundedCentreOf(fromParts: seq<string>, sizeParts: seq<string>, k: nat, a: nat, c: nat)
    requires NilToI(Nth(fromParts, k)) == a && NilToI(Nth(sizeParts, k)) == c
    ensures RoundedCentre(fromParts, sizeParts, k) == CentreCoordinate(a, c)
  {
    NilToFIsNilToI(Nth(sizeParts, k));
    RoundHalfSum(a, c);
  }

  /** `crop_transformation`: a crop entry centred on the crop rectangle, or `nil`. */
  function CropTransformation(o: Options): (r: Option<TransformOp>)
    ensures r.Some? <==> WantsCrop(o)
    ensures r.Some? ==> r.value.CropOp?
    ensures r.Some? ==> r.value.crop == "crop" && r.value.gravity == "xy_center"
    ensures r.Some? ==> r.value.x == CropCentre(o).x && r.value.y == CropCentre(o).y
    ensures r.Some? ==> r.value.size == o.cropSize
  {
    if Truthy(o.crop) && Present(o.cropFrom) then
      Some(CropOp("crop", "xy_center", CropCoordinates(o).x, CropCoordinates(o).y, o.cropSize))
    else None
  }

  /** `resize_transformation`: a resize entry to `size` in the crop mode, or `nil`. */
  function ResizeTransformation(o: Options): (r: Option<TransformOp>)
    ensures r.Some? <==> o.size.Some?
    ensures r.Some? ==> r.value.ResizeOp? && r.value.size == o.size
    ensures r.Some? ==> r.value.crop == CropMode(o)
  {
    if o.size.Some? then Some(ResizeOp(CropMode(o), o.size)) else None
  }

  /**
   * `transformations`: the crop entry and the resize entry, each only when
   * present, the crop always first.
   */
  function Transformations(o: Options): (r: seq<TransformOp>)
    ensures |r| == (if WantsCrop(o) then 1 else 0) + (if o.size.Some? then 1 else 0)
    ensures WantsCrop(o) ==> r[0] == CropTransformation(o).value
    ensures o.size.Some? ==> r[|r| - 1] == ResizeTransformation(o).value
    ensures forall i :: 0 <= i < |r| ==> (r[i].CropOp? <==> i == 0 && WantsCrop(o))
    ensures o == NoOptions ==> r == []
  {
    var crop, resize := CropTransformation(o), ResizeTransformation(o);
    assert [crop, resize][1..] == [resize];
    assert [resize][1..] == [];
    assert Compact([resize]) == (if resize.Some? then [resize.value] else []);
    assert Compact([crop, resize]) == (if crop.Some? then [crop.value] else []) + Compact([resize]);
    Compact([crop, resize])
  }

  /** The crop centre of `"{a}x{b}"` with `"{c}x{d}"`. */
  lemma CropCoordinatesOfShown(o: Options, a: nat, b: nat, c: nat, d: nat)
    requires o.cropFrom == Some(Show(a) + "x" + Show(b))
    requires o.cropSize == Some(Show(c) + "x" + Show(d))
    ensures CropCoordinates(o) == Coordinates(CentreCoordinate(a, c), CentreCoordinate(b, d))
  {
    ComponentsOfShow(a, b);
    ComponentsOfShow(c, d);
  }

  // The gem's own examples. Each takes the options as a parameter equal to
  // the literal, which keeps the verifier from evaluating `split` on literals.

  lemma CropCoordinatesExample1(o: Options)
    requires o == Options(None, Some("10x20"), Some("100x80"), None, None, None)
    ensures CropCoordinates(o) == Coordinates(60, 60)
  {
    ExampleText1();
    ExampleCentres();
    CropCoordinatesOfShown(o, 10, 20, 100, 80);
  }

  lemma CropCoordinatesExample2(o: Options)
    requires o == Options(None, Some("0x0"), Some("50x50"), None, None, None)
    ensures CropCoordinates(o) == Coordinates(25, 25)
  {
    ExampleText2();
    ExampleCentres();
    CropCoordinatesOfShown(o, 0, 0, 50, 50);
  }

  /** An odd size: the half pixel is rounded up. */
  lemma CropCoordinatesExample3(o: Options)
    requires o == Options(None, Some("10x10"), Some("99x99"), None, None, None)
    ensures CropCoordinates(o) == Coordinates(60, 60)
  {
    ExampleText3();
    ExampleCentres();
    CropCoordinatesOfShown(o, 10, 10, 99, 99);
  }

  /** A crop asked for with a rectangle written `"{a}x{b}"`, `"{c}x{d}"` yields the crop entry at its centre. */
  lemma CropTransformationOfShown(o: Options, a: nat, b: nat, c: nat, d: nat)
    requires Truthy(o.crop)
    requires o.cropFrom == Some(Show(a) + "x" + Show(b))
    requires o.cropSize == Some(Show(c) + "x" + Show(d))
    ensures CropTransformation(o)
            == Some(CropOp("crop", "xy_center", CentreCoordinate(a, c), CentreCoordinate(b, d), o.cropSize))
  {
    var from := o.cropFrom.value;
    assert from[0] == Show(a)[0] && IsDigit(from[0]);
    assert !Blank(from) by { assert !IsSpace(from[0]); }
    assert WantsCrop(o);
    CropCoordinatesOfShown(o, a, b, c, d);
  }

  lemma CropCoordinatesExample4(o: Options)
    requires o == Options(Some(true), Some("100x200"), Some("300x400"), None, None, None)
    ensures CropTransformation(o) == Some(CropOp("crop", "xy_center", 250, 400, Some("300x400")))
  {
    ExampleText4();
    ExampleCentres();
    CropTransformationOfShown(o, 100, 200, 300, 400);
  }

  /** Crop and resize: the crop entry first. */
  lemma TransformationsExample(o: Options)
    requires o == Options(Some(true), Some("10x20"), Some("100x80"), Some("300x200"), None, None)
    ensures Transformations(o)
            == [CropOp("crop", "xy_center", 60, 60, Some("100x80")), ResizeOp("fill", Some("300x200"))]
  {
    ExampleText1();
    ExampleCentres();
    CropTransformationOfShown(o, 10, 20, 100, 80);
  }

  /** No crop entry without a present `crop_from`; the mode follows `crop` and `upsample`. */
  lemma TransformationsExamples()
    ensures Transformations(NoOptions) == []
    ensures Transformations(Options(None, None, None, Some("300x200"), None, None))
            == [ResizeOp("limit", Some("300x200"))]
    ensures Transformations(Options(None, None, None, Some("300x200"), Some(true), None))
            == [ResizeOp("fit", Some("300x200"))]
    ensures Transformations(Options(Some(true), None, None, Some("300x200"), None, None))
            == [ResizeOp("fill", Some("300x200"))]
    ensures Transformations(Options(Some(true), Some(""), None, Some("300x200"), None, None))
            == [ResizeOp("fill", Some("300x200"))]
  {
    ResizeOnly(Options(None, None, None, Some("300x200"), None, None));
    ResizeOnly(Options(None, None, None, Some("300x200"), Some(true), None));
    ResizeOnly(Options(Some(true), None, None, Some("300x200"), None, None));
    ResizeOnly(Options(Some(true), Some(""), None, Some("300x200"), None, None));
  }

  /** No crop entry without `crop`, or without `crop_from`. */
  lemma CropTransformationNilExamples()
    ensures CropTransformation(Options(None, Some("100x200"), Some("300x400"), None, None, None)) == None
    ensures Transformations(Options(None, Some("100x200"), Some("300x400"), None, None, None)) == []
    ensures CropTransformation(Options(Some(true), None, Some("300x400"), None, None, None)) == None
  {
  }

  /** Without a crop entry the list is the resize entry alone. */
  lemma ResizeOnly(o: Options)
    requires !WantsCrop(o) && o.size.Some?
    ensures Transformations(o) == [ResizeOp(CropMode(o), o.size)]
  {
    var r := Transformations(o);
    assert |r| == 1 && r[0] == ResizeOp(CropMode(o), o.size);
    assert r == [r[0]];
  }

  /** The URL builder; the picture whose `image_file` it asks is left out. */
  class CloudinaryUrl {
    /** `@options`, `nil` until `call` stores them. */
    var options: Option<Options>

    constructor ()
      ensures options == None
    {
      options := None;
    }

    /** `call`: stores the options and asks for the remote URL, always secure. */
    method Call(options: Options) returns (request: RemoteUrlRequest)
      modifies this
      ensures this.options == Some(options)
      ensures request.transformation == Transformations(options)
      ensures request.secure
    {
      this.options := Some(options);
      request := RemoteUrlRequest(Transformations(options), true);
    }
  }
}
