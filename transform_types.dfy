/**
 * The values shared by the three Cloudinary URL builders: the options bag a
 * picture variant is rendered with, the transformation descriptors handed to
 * Cloudinary, and the record of the `remote_url` call that receives them.
 */
module TransformTypes {
  import opened Wrappers
  import opened RubyCore

  /**
   * The options bag. Every key may be missing (`None`); `crop`, `upsample`
   * and `secure` are read for their truthiness, the strings verbatim.
   */
  datatype Options = Options(
    crop: Option<bool>,
    cropFrom: Option<string>,
    cropSize: Option<string>,
    size: Option<string>,
    upsample: Option<bool>,
    secure: Option<bool>)

  /** `{}`: no option given. */
  const NoOptions: Options := Options(None, None, None, None, None, None)

  /**
   * One entry of the `transformation:` array. A crop entry is the hash
   * `{crop:, gravity:, x:, y:, size:}`, a resize entry `{crop:, size:}`;
   * `size` is whatever the options held, `nil` included.
   */
  datatype TransformOp =
    | CropOp(crop: string, gravity: string, x: int, y: int, size: Option<string>)
    | ResizeOp(crop: string, size: Option<string>)

  /** The hash `{x:, y:}` that `crop_coordinates` returns. */
  datatype Coordinates = Coordinates(x: int, y: int)

  /** The arguments of the delegated `image_file.remote_url(transformation:, secure:)` call. */
  datatype RemoteUrlRequest = RemoteUrlRequest(transformation: seq<TransformOp>, secure: bool)

  /** `Array#compact`: the present entries, in order. */
  function Compact(ops: seq<Option<TransformOp>>): (r: seq<TransformOp>)
    ensures |r| <= |ops|
    ensures |ops| > 0 && ops[0].Some? ==> |r| > 0 && r[0] == ops[0].value
    ensures |ops| > 0 && ops[|ops| - 1].Some? ==> |r| > 0 && r[|r| - 1] == ops[|ops| - 1].value
  {
    if |ops| == 0 then []
    else (if ops[0].Some? then [ops[0].value] else []) + Compact(ops[1..])
  }

  /** `compact` of a concatenation is the concatenation of the compacted halves. */
  lemma {:induction false} CompactAppend(p: seq<Option<TransformOp>>, q: seq<Option<TransformOp>>)
    ensures Compact(p + q) == Compact(p) + Compact(q)
  {
    if |p| == 0 {
      assert p + q == q;
    } else {
      assert (p + q)[1..] == p[1..] + q;
      CompactAppend(p[1..], q);
    }
  }

  /** `compact` keeps a present entry and drops `nil`. */
  lemma CompactSingleton(x: TransformOp)
    ensures Compact([Some(x)]) == [x]
    ensures Compact([Option<TransformOp>.None]) == []
  {
    assert [Some(x)][1..] == [];
    assert [Option<TransformOp>.None][1..] == [];
  }

  /** The crop modes a resize entry can carry. */
  const ResizeModes: set<string> := {"fill", "fit", "limit"}

  /** Whether the options ask for a crop entry: `crop` is truthy and `crop_from` is present. */
  function WantsCrop(o: Options): (r: bool)
    ensures r ==> o.crop == Some(true)
    ensures r ==> o.cropFrom.Some? && o.cropFrom.value != ""
    ensures o.crop == Some(true) && o.cropFrom.Some? && |o.cropFrom.value| > 0 && IsDigit(o.cropFrom.value[0]) ==> r
  {
    if o.cropFrom.Some? && |o.cropFrom.value| > 0 then
      assert IsDigit(o.cropFrom.value[0]) ==> !IsSpace(o.cropFrom.value[0]);
      Truthy(o.crop) && Present(o.cropFrom)
    else Truthy(o.crop) && Present(o.cropFrom)
  }

  /** The number before the first `x` of an `"AxB"` string (0 when there is none). */
  function FirstComponent(s: string): nat {
    ToI(s)
  }

  /** The number after the first `x` of an `"AxB"` string (0 when there is none). */
  function SecondComponent(s: string): nat {
    match IndexOf(s, 'x')
    case None => 0
    case Some(i) => ToI(s[i + 1..])
  }

  /** The centre of a span of `length` pixels starting at `from`, a half pixel rounded up. */
  function CentreCoordinate(from: nat, length: nat): (r: nat)
    ensures 2 * r == 2 * from + length || 2 * r == 2 * from + length + 1
  {
    (2 * from + length + 1) / 2
  }

  /** The crop centre the options describe, axis by axis. */
  function CropCentre(o: Options): (r: Coordinates)
    ensures var from, size := ToS(o.cropFrom), ToS(o.cropSize);
            2 * r.x - 2 * FirstComponent(from) - FirstComponent(size) in {0, 1} &&
            2 * r.y - 2 * SecondComponent(from) - SecondComponent(size) in {0, 1}
    ensures o.cropFrom.None? && o.cropSize.None? ==> r == Coordinates(0, 0)
  {
    var from, size := ToS(o.cropFrom), ToS(o.cropSize);
    Coordinates(CentreCoordinate(FirstComponent(from), FirstComponent(size)),
                CentreCoordinate(SecondComponent(from), SecondComponent(size)))
  }

  /** The components of `"{a}x{b}"` read back as `a` and `b`. */
  lemma ComponentsOfShow(a: nat, b: nat)
    ensures FirstComponent(Show(a) + "x" + Show(b)) == a
    ensures SecondComponent(Show(a) + "x" + Show(b)) == b
  {
    FirstComponentOfShow(Show(a) + "x" + Show(b), a, Show(b));
    SecondComponentOfShow(Show(a) + "x" + Show(b), Show(a), b);
  }

  lemma FirstComponentOfShow(s: string, a: nat, rest: string)
    requires s == Show(a) + "x" + rest
    ensures FirstComponent(s) == a
  {
    assert s == Show(a) + ("x" + rest);
    ToIShow(a, "x" + rest);
  }

  lemma SecondComponentOfShow(s: string, digits: string, b: nat)
    requires forall i :: 0 <= i < |digits| ==> IsDigit(digits[i])
    requires s == digits + "x" + Show(b)
    ensures SecondComponent(s) == b
  {
    assert s[..|digits|] == digits;
    assert 'x' !in digits by { assert !IsDigit('x'); }
    IndexOfAt(s, 'x', |digits|);
    assert s[|digits| + 1..] == Show(b) + "";
    ToIShow(b, "");
  }

  // The `"AxB"` strings of the gem's own examples, as decimal notation.

  lemma ExampleText1()
    ensures "10x20" == Show(10) + "x" + Show(20) && "100x80" == Show(100) + "x" + Show(80)
  {
  }

  lemma ExampleText2()
    ensures "0x0" == Show(0) + "x" + Show(0) && "50x50" == Show(50) + "x" + Show(50)
  {
  }

  lemma ExampleText3()
    ensures "10x10" == Show(10) + "x" + Show(10) && "99x99" == Show(99) + "x" + Show(99)
  {
  }

  lemma ExampleText4()
    ensures "100x200" == Show(100) + "x" + Show(200) && "300x400" == Show(300) + "x" + Show(400)
  {
  }

  /** The centres of the gem's own examples. */
  lemma ExampleCentres()
    ensures CentreCoordinate(10, 100) == 60 && CentreCoordinate(20, 80) == 60
    ensures CentreCoordinate(0, 50) == 25
    ensures CentreCoordinate(10, 99) == 60
    ensures CentreCoordinate(100, 300) == 250 && CentreCoordinate(200, 400) == 400
  {
  }
}
