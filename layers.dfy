/** Shape arithmetic of the Keras layers the networks are built from, and the
    configuration records that the `downsample` / `upsample` factories produce.
    Only integer shapes are modelled; weights and activations values are not. */
module Layers {

  /** The shape of one image in a batch: (height, width, channels). The batch
      axis is the same everywhere and is left implicit. */
  datatype Shape = Shape(height: nat, width: nat, channels: nat)

  datatype Padding = Same | Valid

  datatype Nonlinearity = LeakyRelu | Relu | Tanh | Linear

  /** A convolution block (a convolution, optionally followed by batch
      normalisation and dropout, then a nonlinearity), or a 1-pixel zero
      padding layer. Normalisation, dropout and nonlinearities never change a
      shape; they are recorded so that the block configurations can be
      compared with the source. */
  datatype Layer =
    | Conv(filters: nat, kernel: nat, stride: nat, padding: Padding, transposed: bool,
           batchNorm: bool, dropout: bool, bias: bool, activation: Nonlinearity)
    | ZeroPad

  /** Why building a layer graph fails (Keras raises at construction time). */
  datatype LayerError =
    | BadConfig        // a kernel or stride of zero
    | KernelTooLarge   // a valid convolution over an input smaller than its kernel
    | SpatialMismatch  // a concatenation of tensors whose spatial sizes differ

  datatype Result<T> = Ok(value: T) | Err(error: LayerError)

  function CeilDiv(n: nat, s: nat): nat
    requires s > 0
  {
    (n + s - 1) / s
  }

  /** Output length of a forward convolution along one axis. */
  function ConvLength(n: nat, kernel: nat, stride: nat, padding: Padding): nat
    requires stride > 0 && (padding == Valid ==> kernel <= n)
  {
    match padding
    case Same => CeilDiv(n, stride)
    case Valid => (n - kernel) / stride + 1
  }

  /** Output length of a transposed convolution along one axis. */
  function TransposedLength(n: nat, kernel: nat, stride: nat, padding: Padding): nat
  {
    match padding
    case Same => n * stride
    case Valid => n * stride + (if kernel > stride then kernel - stride else 0)
  }

  /** The shape a layer produces from an input of shape `x`. */
  function Apply(layer: Layer, x: Shape): Result<Shape>
  {
    match layer
    case ZeroPad => Ok(Shape(x.height + 2, x.width + 2, x.channels))
    case Conv(filters, kernel, stride, padding, transposed, _, _, _, _) =>
      if kernel == 0 || stride == 0 then Err(BadConfig)
      else if transposed then
        Ok(Shape(TransposedLength(x.height, kernel, stride, padding),
                 TransposedLength(x.width, kernel, stride, padding), filters))
      else if padding == Valid && (x.height < kernel || x.width < kernel) then Err(KernelTooLarge)
      else
        Ok(Shape(ConvLength(x.height, kernel, stride, padding),
                 ConvLength(x.width, kernel, stride, padding), filters))
  }

  /** Channel-wise concatenation of two tensors. */
  function Concat(a: Shape, b: Shape): Result<Shape>
  {
    if a.height == b.height && a.width == b.width then Ok(Shape(a.height, a.width, a.channels + b.channels))
    else Err(SpatialMismatch)
  }

  /** The encoder block factory: a stride-2 `same` convolution without bias,
      batch normalisation when asked for, then a leaky ReLU. */
  function Downsample(filters: nat, size: nat, applyBatchnorm: bool): Layer
  {
    Conv(filters, size, 2, Same, false, applyBatchnorm, false, false, LeakyRelu)
  }

  /** The decoder block factory: a stride-2 `same` transposed convolution
      without bias, batch normalisation, dropout when asked for, then a ReLU. */
  function Upsample(filters: nat, size: nat, applyDropout: bool): Layer
  {
    Conv(filters, size, 2, Same, true, true, applyDropout, false, Relu)
  }

  /** The channels a convolution block produces. */
  function Filters(layer: Layer): nat
  {
    if layer.Conv? then layer.filters else 0
  }

  /** A block that halves (rounding up) the spatial size. */
  predicate Halving(layer: Layer)
  {
    layer.Conv? && !layer.transposed && layer.padding == Same && layer.stride == 2 && layer.kernel > 0
  }

  /** A block that doubles the spatial size. */
  predicate Doubling(layer: Layer)
  {
    layer.Conv? && layer.transposed && layer.padding == Same && layer.stride == 2 && layer.kernel > 0
  }

  lemma DownsampleHalves(filters: nat, size: nat, applyBatchnorm: bool, x: Shape)
    requires size > 0
    ensures var block := Downsample(filters, size, applyBatchnorm);
      Halving(block) && block.kernel == size && block.batchNorm == applyBatchnorm &&
      !block.dropout && !block.bias && block.activation == LeakyRelu &&
      Apply(block, x) == Ok(Shape(CeilDiv(x.height, 2), CeilDiv(x.width, 2), filters))
  {
  }

  lemma UpsampleDoubles(filters: nat, size: nat, applyDropout: bool, x: Shape)
    requires size > 0
    ensures var block := Upsample(filters, size, applyDropout);
      Doubling(block) && block.kernel == size && block.batchNorm &&
      block.dropout == applyDropout && !block.bias && block.activation == Relu &&
      Apply(block, x) == Ok(Shape(2 * x.height, 2 * x.width, filters))
  {
  }

  /** The last shape of a trace, or the input when nothing ran. */
  function Final(x: Shape, trace: seq<Shape>): Shape
  {
    if trace == [] then x else trace[|trace| - 1]
  }

  /** Runs `layers` one after the other from an input of shape `x` and
      returns the shape after each of them. */
  function Trace(x: Shape, layers: seq<Layer>): (r: Result<seq<Shape>>)
    ensures r.Ok? ==> |r.value| == |layers|
    decreases |layers|
  {
    if layers == [] then Ok([])
    else
      match Apply(layers[0], x)
      case Err(e) => Err(e)
      case Ok(y) =>
        match Trace(y, layers[1..])
        case Err(e) => Err(e)
        case Ok(t) => Ok([y] + t)
  }

  /** Building a chain and then one more layer is building the longer chain. */
  lemma {:induction false} TraceSnoc(x: Shape, layers: seq<Layer>, last: Layer)
    ensures Trace(x, layers + [last]) ==
      match Trace(x, layers)
      case Err(e) => Err(e)
      case Ok(t) =>
        match Apply(last, Final(x, t))
        case Err(e) => Err(e)
        case Ok(y) => Ok(t + [y])
    decreases |layers|
  {
    if layers == [] {
      assert [] + [last] == [last];
      assert [last][1..] == [];
      match Apply(last, x)
      case Err(e) =>
      case Ok(y) =>
        assert Trace(y, [last][1..]) == Ok([]);
        assert [y] + [] == [y] && [] + [y] == [y];
        assert layers + [last] == [last];
        assert Trace(x, layers) == Ok([]);
    } else {
      assert (layers + [last])[0] == layers[0];
      assert (layers + [last])[1..] == layers[1..] + [last];
      match Apply(layers[0], x)
      case Err(e) =>
      case Ok(y) =>
        TraceSnoc(y, layers[1..], last);
        match Trace(y, layers[1..])
        case Err(e) =>
        case Ok(t) =>
          assert Final(x, [y] + t) == Final(y, t);
          match Apply(last, Final(y, t))
          case Err(e) =>
          case Ok(z) =>
            assert [y] + (t + [z]) == ([y] + t) + [z];
    }
  }

  /** Extending a built chain by one layer appends that layer's output. */
  lemma TraceStep(x: Shape, layers: seq<Layer>, i: nat, t: seq<Shape>)
    requires i < |layers| && Trace(x, layers[..i]) == Ok(t)
    ensures Trace(x, layers[..i + 1]) ==
      match Apply(layers[i], Final(x, t))
      case Err(e) => Err(e)
      case Ok(y) => Ok(t + [y])
  {
    assert layers[..i + 1] == layers[..i] + [layers[i]];
    TraceSnoc(x, layers[..i], layers[i]);
  }

  /** Once a prefix of a chain fails to build, the whole chain fails with the
      same error. */
  lemma {:induction false} TraceErrorSticks(x: Shape, layers: seq<Layer>, i: nat, e: LayerError)
    requires i <= |layers| && Trace(x, layers[..i]) == Err(e)
    ensures Trace(x, layers) == Err(e)
    decreases |layers| - i
  {
    if i < |layers| {
      assert layers[..i + 1] == layers[..i] + [layers[i]];
      TraceSnoc(x, layers[..i], layers[i]);
      TraceErrorSticks(x, layers, i + 1, e);
    } else {
      assert layers[..i] == layers;
    }
  }
}
