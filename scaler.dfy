/** `scale_img`: the target height chosen by the size combo box, the
    aspect-preserving width, and the resample-and-save request. */
module Scaler {
  import opened CInt
  import opened Paths
  import opened Events

  /** The entries of the size combo box, in the order they are appended. */
  datatype SizeCategory = Photograph | Article | Thumbnail | Icon
  {
    function ComboIndex(): int32
    {
      match this
      case Photograph => 0
      case Article => 1
      case Thumbnail => 2
      case Icon => 3
    }

    /** The height each entry stands for. */
    function Height(): int32
    {
      match this
      case Photograph => 1200
      case Article => 600
      case Thumbnail => 200
      case Icon => 50
    }
  }

  /** The new height for the combo box's active index; `newh` keeps its
      initial 0 for any other index, such as -1 when nothing is active. */
  function TargetHeight(index: int32): (newh: int32)
    ensures newh > 0 <==> 0 <= index <= 3
    ensures newh == 0 <==> !(0 <= index <= 3)
  {
    if index == 0 then 1200
    else if index == 1 then 600
    else if index == 2 then 200
    else if index == 3 then 50
    else 0
  }

  /** The table agrees with the combo box entries; an index that names no
      entry selects height 0. */
  lemma {:induction false} TargetHeightCatalogue(index: int32)
    ensures forall c: SizeCategory :: TargetHeight(c.ComboIndex()) == c.Height()
    ensures TargetHeight(index) != 0 <==> exists c: SizeCategory :: c.ComboIndex() == index
  {
    if 0 <= index <= 3 {
      var c := if index == 0 then Photograph else if index == 1 then Article
        else if index == 2 then Thumbnail else Icon;
      assert c.ComboIndex() == index;
    }
  }

  /** Larger entries come first: the heights strictly decrease with the index. */
  lemma HeightsDecrease(i: int32, j: int32)
    requires 0 <= i < j <= 3
    ensures TargetHeight(i) > TargetHeight(j) > 0
  {
  }

  /** The width and height of a loaded image, as gdk-pixbuf reports them. */
  datatype Dims = Dims(width: int32, height: int32)

  /** What `(orgw * newh) / orgh` in C `int` needs to be defined: a non-zero
      divisor, a product within `int`, and not the one quotient that leaves
      `int` (the least `int` divided by -1). */
  predicate WidthComputable(orgw: int32, orgh: int32, newh: int32)
  {
    orgh != 0
    && InInt32(orgw as int * newh as int)
    && !(orgw as int * newh as int == MinInt32 && orgh == -1)
  }

  /** `(orgw * newh) / orgh`: the C quotient, truncated toward zero; for
      non-negative sizes it is the largest width whose ratio to `newh` does
      not exceed the source's `orgw : orgh`. */
  function NewWidth(orgw: int32, orgh: int32, newh: int32): (neww: int32)
    requires WidthComputable(orgw, orgh, newh)
    ensures var rem := orgw as int * newh as int - neww as int * orgh as int;
      Abs(rem) < Abs(orgh as int) && (rem == 0 || (rem > 0 <==> orgw as int * newh as int > 0))
    ensures orgw >= 0 && newh >= 0 && orgh > 0 ==>
      neww as int * orgh as int <= orgw as int * newh as int < (neww as int + 1) * orgh as int
  {
    var p := orgw as int * newh as int;
    TruncDivInt32(p, orgh as int);
    TruncDiv(p, orgh as int) as int32
  }

  /** The two worked cases: a 1600x1200 photograph keeps its width at the
      Photograph height and becomes 66 wide at the Icon height. */
  lemma WidthExamples()
    ensures NewWidth(1600, 1200, TargetHeight(Photograph.ComboIndex())) == 1600
    ensures NewWidth(1600, 1200, TargetHeight(Icon.ComboIndex())) == 66
  {
    TruncDivIsFloor(1600 * 1200, 1200);
    TruncDivIsFloor(1600 * 50, 1200);
  }

  /** An image already at the target height keeps its width. */
  lemma {:induction false} SameHeightKeepsWidth(orgw: int32, orgh: int32)
    requires orgw >= 0 && orgh > 0 && WidthComputable(orgw, orgh, orgh)
    ensures NewWidth(orgw, orgh, orgh) == orgw
  {
    var w, h, n := orgw as int, orgh as int, NewWidth(orgw, orgh, orgh) as int;
    assert n * h <= w * h < (n + 1) * h;
    if n > w {
      MulLe(w + 1, n, h);
    } else if n < w {
      MulLe(n + 1, w, h);
    }
  }

  /** A taller target never gives a narrower image. */
  lemma {:induction false} WidthMonotone(orgw: int32, orgh: int32, h1: int32, h2: int32)
    requires orgw >= 0 && orgh > 0 && 0 <= h1 <= h2
    requires WidthComputable(orgw, orgh, h1) && WidthComputable(orgw, orgh, h2)
    ensures NewWidth(orgw, orgh, h1) <= NewWidth(orgw, orgh, h2)
  {
    var w, h := orgw as int, orgh as int;
    var n1, n2 := NewWidth(orgw, orgh, h1) as int, NewWidth(orgw, orgh, h2) as int;
    MulLe(h1 as int, h2 as int, w);
    assert n1 * h <= h1 as int * w && h2 as int * w < (n2 + 1) * h;
    if n1 > n2 {
      MulLe(n2 + 1, n1, h);
    }
  }

  /** The widest source whose product with every table height stays within
      C `int`. */
  const MaxSafeWidth: int32 := 1789569

  /** Every source at most `MaxSafeWidth` wide, with a positive height, has
      a computable width for every index; one pixel wider overflows at the
      Photograph height. */
  lemma {:induction false} OverflowBound(orgw: int32, orgh: int32, index: int32)
    requires 0 <= orgw <= MaxSafeWidth && orgh > 0
    ensures WidthComputable(orgw, orgh, TargetHeight(index))
    ensures !WidthComputable(MaxSafeWidth + 1, orgh, TargetHeight(Photograph.ComboIndex()))
  {
    var newh := TargetHeight(index) as int;
    assert 0 <= newh <= 1200;
    assert orgw as int * newh <= orgw as int * 1200 <= MaxSafeWidth as int * 1200;
  }

  /** What `scale_img` reads besides its arguments: the folder label's
      text, the combo box's active index, and the images the file system
      can decode, keyed by the path they are loaded from. */
  datatype Context = Context(dir: string, index: int32, images: map<string, Dims>)

  /** The source demands that a loaded image's width can be computed. */
  predicate Scalable(ctx: Context, name: string)
  {
    var path := InputPath(ctx.dir, name);
    path in ctx.images ==>
      WidthComputable(ctx.images[path].width, ctx.images[path].height, TargetHeight(ctx.index))
  }

  function LoadFailedMessage(name: string): string
  {
    "Failed to load image: " + name + "\n"
  }

  /** One call of `scale_img`: an image that fails to load gives only a
      console message; a loaded one gives a request to save, next to the
      source under the "s_" name, a copy at the table height whose width
      keeps the source's aspect ratio. */
  function ScaleImg(ctx: Context, name: string): (e: Event)
    requires Scalable(ctx, name)
    ensures e.Resize? <==> InputPath(ctx.dir, name) in ctx.images
    ensures !e.Resize? ==> e == Stdout(LoadFailedMessage(name))
    ensures e.Resize? ==> e.dst == OutputPath(ctx.dir, name) && e.height == TargetHeight(ctx.index)
    ensures e.Resize? ==>
      var src := ctx.images[InputPath(ctx.dir, name)];
      src.width >= 0 && src.height > 0 ==>
        e.width as int * src.height as int <= src.width as int * e.height as int
        < (e.width as int + 1) * src.height as int
  {
    var path := InputPath(ctx.dir, name);
    if path !in ctx.images then
      Stdout(LoadFailedMessage(name))
    else
      var src := ctx.images[path];
      var newh := TargetHeight(ctx.index);
      Resize(OutputPath(ctx.dir, name), NewWidth(src.width, src.height, newh), newh)
  }
}
