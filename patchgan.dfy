/** The PatchGAN discriminator: the input and target images concatenated
    channel-wise, three halving blocks, then padding and two valid 4x4
    convolutions, giving a grid of logits. Each logit sees a 70x70 patch. */
module PatchGan {
  import opened Layers

  const ImageShape := Shape(256, 256, 3)

  /** The body and head, after the two inputs are concatenated. */
  const DiscriminatorLayers: seq<Layer> := [
    Downsample(64, 4, false),
    Downsample(128, 4, true),
    Downsample(256, 4, true),
    ZeroPad,
    Conv(512, 4, 1, Valid, false, true, false, false, LeakyRelu),
    ZeroPad,
    Conv(1, 4, 1, Valid, false, false, false, true, Linear)
  ]

  /** The shape after every stage, the concatenated input first. */
  function DiscriminatorTrace(inp: Shape, tar: Shape): Result<seq<Shape>>
  {
    match Concat(inp, tar)
    case Err(e) => Err(e)
    case Ok(x) =>
      match Trace(x, DiscriminatorLayers)
      case Err(e) => Err(e)
      case Ok(t) => Ok([x] + t)
  }

  /** The shape of the logit grid. */
  function Discriminator(inp: Shape, tar: Shape): Result<Shape>
  {
    match DiscriminatorTrace(inp, tar)
    case Err(e) => Err(e)
    case Ok(t) => Ok(t[|t| - 1])
  }

  lemma CeilDivHalves(n: nat)
    ensures CeilDiv(CeilDiv(CeilDiv(n, 2), 2), 2) == CeilDiv(n, 8)
  {
  }

  /** One step of building the chain from its i-th layer on. */
  lemma TraceFrom(x: Shape, i: nat)
    requires i < |DiscriminatorLayers|
    ensures Trace(x, DiscriminatorLayers[i..]) ==
      match Apply(DiscriminatorLayers[i], x)
      case Err(e) => Err(e)
      case Ok(y) =>
        match Trace(y, DiscriminatorLayers[i + 1..])
        case Err(e) => Err(e)
        case Ok(t) => Ok([y] + t)
  {
    assert DiscriminatorLayers[i..][1..] == DiscriminatorLayers[i + 1..];
  }

  /** The side length of the logit grid for an input side n. */
  function GridSide(n: nat): int
  {
    CeilDiv(n, 8) - 2
  }

  /** The head of the chain (pad, valid conv, pad, valid conv) over an
      h x w x c tensor: h + 2, h - 1, h + 1, h - 2, built exactly when
      h >= 3 and w >= 3. */
  lemma {:induction false} HeadShapes(h: nat, w: nat, c: nat)
    ensures Trace(Shape(h, w, c), DiscriminatorLayers[3..]) ==
      if h >= 3 && w >= 3 then
        Ok([Shape(h + 2, w + 2, c), Shape(h - 1, w - 1, 512), Shape(h + 1, w + 1, 512), Shape(h - 2, w - 2, 1)])
      else Err(KernelTooLarge)
  {
    var s3 := Shape(h, w, c);
    var s4 := Shape(h + 2, w + 2, c);
    TraceFrom(s3, 3);
    TraceFrom(s4, 4);
    if h >= 2 && w >= 2 {
      var s5 := Shape(h - 1, w - 1, 512);
      var s6 := Shape(h + 1, w + 1, 512);
      TraceFrom(s5, 5);
      TraceFrom(s6, 6);
      if h >= 3 && w >= 3 {
        var s7 := Shape(h - 2, w - 2, 1);
        assert Trace(s7, DiscriminatorLayers[7..]) == Ok([]);
        assert Apply(DiscriminatorLayers[6], s6) == Ok(s7);
        assert [s7] + [] == [s7];
        assert Trace(s6, DiscriminatorLayers[6..]) == Ok([s7]);
        assert Apply(DiscriminatorLayers[5], s5) == Ok(s6);
        assert [s6] + [s7] == [s6, s7];
        assert Trace(s5, DiscriminatorLayers[5..]) == Ok([s6, s7]);
        assert Apply(DiscriminatorLayers[4], s4) == Ok(s5);
        assert [s5] + [s6, s7] == [s5, s6, s7];
        assert Trace(s4, DiscriminatorLayers[4..]) == Ok([s5, s6, s7]);
        assert [s4] + [s5, s6, s7] == [s4, s5, s6, s7];
      } else {
        assert Trace(s6, DiscriminatorLayers[6..]) == Err(KernelTooLarge);
        assert Trace(s4, DiscriminatorLayers[4..]) == Err(KernelTooLarge);
      }
    } else {
      assert Trace(s4, DiscriminatorLayers[4..]) == Err(KernelTooLarge);
    }
  }

  /** The shape after every stage for a concatenated input of any size:
      ceil(n/2), ceil(n/4), ceil(n/8) =: m through the halving blocks, then
      m + 2, m - 1, m + 1 and m - 2; the chain can be built exactly when
      m - 2 >= 1 on both axes. */
  lemma {:induction false} ChainShapes(x: Shape)
    ensures var h, w := CeilDiv(x.height, 8), CeilDiv(x.width, 8);
      Trace(x, DiscriminatorLayers) ==
        if h >= 3 && w >= 3 then
          Ok([Shape(CeilDiv(x.height, 2), CeilDiv(x.width, 2), 64),
              Shape(CeilDiv(CeilDiv(x.height, 2), 2), CeilDiv(CeilDiv(x.width, 2), 2), 128),
              Shape(h, w, 256), Shape(h + 2, w + 2, 256), Shape(h - 1, w - 1, 512),
              Shape(h + 1, w + 1, 512), Shape(h - 2, w - 2, 1)])
        else Err(KernelTooLarge)
  {
    CeilDivHalves(x.height);
    CeilDivHalves(x.width);
    var h, w := CeilDiv(x.height, 8), CeilDiv(x.width, 8);
    var s1 := Shape(CeilDiv(x.height, 2), CeilDiv(x.width, 2), 64);
    var s2 := Shape(CeilDiv(CeilDiv(x.height, 2), 2), CeilDiv(CeilDiv(x.width, 2), 2), 128);
    var s3 := Shape(h, w, 256);
    TraceFrom(x, 0);
    TraceFrom(s1, 1);
    TraceFrom(s2, 2);
    assert Apply(DiscriminatorLayers[0], x) == Ok(s1);
    assert Apply(DiscriminatorLayers[1], s1) == Ok(s2);
    assert Apply(DiscriminatorLayers[2], s2) == Ok(s3);
    HeadShapes(h, w, 256);
    assert DiscriminatorLayers[0..] == DiscriminatorLayers;
    if h >= 3 && w >= 3 {
      var t := [Shape(h + 2, w + 2, 256), Shape(h - 1, w - 1, 512), Shape(h + 1, w + 1, 512), Shape(h - 2, w - 2, 1)];
      assert Trace(s3, DiscriminatorLayers[3..]) == Ok(t);
      assert Trace(s2, DiscriminatorLayers[2..]) == Ok([s3] + t);
      assert Trace(s1, DiscriminatorLayers[1..]) == Ok([s2] + ([s3] + t));
      assert Trace(x, DiscriminatorLayers[0..]) == Ok([s1] + ([s2] + ([s3] + t)));
      assert [s1] + ([s2] + ([s3] + t)) == [s1, s2, s3] + t;
      assert [s1, s2, s3] + t == [s1, s2, s3, t[0], t[1], t[2], t[3]];
    } else {
      assert Trace(s3, DiscriminatorLayers[3..]) == Err(KernelTooLarge);
      assert Trace(s2, DiscriminatorLayers[2..]) == Err(KernelTooLarge);
      assert Trace(s1, DiscriminatorLayers[1..]) == Err(KernelTooLarge);
    }
  }

  /** For any pair of inputs: the discriminator can be built exactly when
      the two inputs have the same spatial size and both sides give a grid
      of at least one cell; the concatenated input then has the two channel
      counts added, and the grid has one channel and sides ceil(n/8) - 2. */
  lemma DiscriminatorOutput(inp: Shape, tar: Shape)
    ensures Discriminator(inp, tar).Ok? <==>
      inp.height == tar.height && inp.width == tar.width && GridSide(inp.height) >= 1 && GridSide(inp.width) >= 1
    ensures Discriminator(inp, tar).Ok? ==>
      DiscriminatorTrace(inp, tar).value[0] == Shape(inp.height, inp.width, inp.channels + tar.channels) &&
      Discriminator(inp, tar).value == Shape(GridSide(inp.height), GridSide(inp.width), 1)
  {
    if inp.height == tar.height && inp.width == tar.width {
      ChainShapes(Shape(inp.height, inp.width, inp.channels + tar.channels));
    }
  }

  /** Two 256x256x3 images give a 6-channel input and then 128, 64, 32,
      34 after padding, 31 after the 4x4 convolution, 33 after padding and
      a 30x30x1 grid. */
  lemma DiscriminatorShapes()
    ensures DiscriminatorTrace(ImageShape, ImageShape) == Ok([
      Shape(256, 256, 6), Shape(128, 128, 64), Shape(64, 64, 128), Shape(32, 32, 256),
      Shape(34, 34, 256), Shape(31, 31, 512), Shape(33, 33, 512), Shape(30, 30, 1)])
    ensures Discriminator(ImageShape, ImageShape) == Ok(Shape(30, 30, 1))
  {
    var x := Shape(256, 256, 6);
    ChainShapes(x);
    assert CeilDiv(256, 2) == 128 && CeilDiv(128, 2) == 64 && CeilDiv(256, 8) == 32;
    assert Concat(ImageShape, ImageShape) == Ok(x);
    var t := [Shape(128, 128, 64), Shape(64, 64, 128), Shape(32, 32, 256),
      Shape(34, 34, 256), Shape(31, 31, 512), Shape(33, 33, 512), Shape(30, 30, 1)];
    assert Trace(x, DiscriminatorLayers) == Ok(t);
    assert [x] + t == [Shape(256, 256, 6), Shape(128, 128, 64), Shape(64, 64, 128), Shape(32, 32, 256),
      Shape(34, 34, 256), Shape(31, 31, 512), Shape(33, 33, 512), Shape(30, 30, 1)];
  }

  /** Kernel size and stride of a layer for the receptive-field recurrence;
      a zero padding acts as a 1x1 kernel with stride 1. */
  function Kernel(layer: Layer): nat
  {
    if layer.Conv? then layer.kernel else 1
  }

  function Stride(layer: Layer): nat
  {
    if layer.Conv? then layer.stride else 1
  }

  /** The standard forward recurrence over a chain of forward convolutions:
      r += (k - 1) * jump, then jump *= s. */
  function ReceptiveField(layers: seq<Layer>, r: int, jump: int): int
    decreases |layers|
  {
    if layers == [] then r
    else ReceptiveField(layers[1..], r + (Kernel(layers[0]) - 1) * jump, jump * Stride(layers[0]))
  }

  /** The distance, in input pixels, between neighbouring output cells:
      the product of the strides. */
  function Jump(layers: seq<Layer>): int
    decreases |layers|
  {
    if layers == [] then 1 else Stride(layers[0]) * Jump(layers[1..])
  }

  /** An independent reference: the width of the input window that one
      output cell depends on, computed from the output back to the input.
      A window of w cells after a layer with kernel k and stride s spans
      (w - 1) * s + k cells before it. */
  function Window(layers: seq<Layer>): int
    decreases |layers|
  {
    if layers == [] then 1
    else (Window(layers[1..]) - 1) * Stride(layers[0]) + Kernel(layers[0])
  }

  /** The forward recurrence started from (r, jump) equals r plus jump times
      (the window of the chain, minus one). */
  lemma {:induction false} ReceptiveFieldIsWindow(layers: seq<Layer>, r: int, jump: int)
    ensures ReceptiveField(layers, r, jump) == r + jump * (Window(layers) - 1)
    decreases |layers|
  {
    if layers != [] {
      var k, s := Kernel(layers[0]), Stride(layers[0]);
      ReceptiveFieldIsWindow(layers[1..], r + (k - 1) * jump, jump * s);
      var w := Window(layers[1..]);
      WindowStep(r, jump, k, s, w);
    }
  }

  /** The arithmetic of one step of the recurrence. */
  lemma WindowStep(r: int, jump: int, k: int, s: int, w: int)
    ensures r + (k - 1) * jump + (jump * s) * (w - 1) == r + jump * (((w - 1) * s + k) - 1)
  {
    var a := (w - 1) * s;
    assert (jump * s) * (w - 1) == jump * a;
    assert jump * (a + (k - 1)) == jump * a + jump * (k - 1);
  }

  /** Every logit of the discriminator sees a 70x70 window of its input,
      and neighbouring logits are 8 input pixels apart. */
  lemma PatchSize()
    ensures ReceptiveField(DiscriminatorLayers, 1, 1) == 70
    ensures Window(DiscriminatorLayers) == 70
    ensures Jump(DiscriminatorLayers) == 8
  {
    ReceptiveFieldIsWindow(DiscriminatorLayers, 1, 1);
  }
}
