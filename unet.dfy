/** The U-Net generator: eight encoder blocks whose outputs are collected as
    skip tensors, seven decoder blocks each concatenated with one skip, and a
    final transposed convolution. The graph is built imperatively, as the
    source does, and its result is specified by `Wire`. */
module UNet {
  import opened Layers
  import opened Seqs

  /** A tensor of the graph under construction: the encoder block that
      produced it and its shape. The producer index stands for the identity
      of the tensor object the source keeps in its `skips` list. */
  datatype Tensor = Tensor(producer: nat, shape: Shape)

  /** One skip connection: the output of decoder block `decoder` (of shape
      `upsampled`) concatenated with the output of encoder block `encoder`,
      giving `merged`. */
  datatype Link = Link(decoder: nat, encoder: nat, upsampled: Shape, merged: Shape)

  /** What building the generator produces: the encoder outputs, the skip
      connections in decoder order, and the shape of the generator's output. */
  datatype Wiring = Wiring(encoder: seq<Shape>, links: seq<Link>, output: Shape)

  const InputShape := Shape(256, 256, 3)
  const OutputChannels: nat := 3

  const DownStack: seq<Layer> := [
    Downsample(64, 4, false),
    Downsample(128, 4, true),
    Downsample(256, 4, true),
    Downsample(512, 4, true),
    Downsample(512, 4, true),
    Downsample(512, 4, true),
    Downsample(512, 4, true),
    Downsample(512, 4, true)
  ]

  const UpStack: seq<Layer> := [
    Upsample(512, 4, true),
    Upsample(512, 4, true),
    Upsample(512, 4, true),
    Upsample(512, 4, false),
    Upsample(256, 4, false),
    Upsample(128, 4, false),
    Upsample(64, 4, false)
  ]

  /** The output head: a stride-2 `same` transposed convolution to three
      channels, with bias, no normalisation, and tanh. */
  const LastLayer := Conv(OutputChannels, 4, 2, Same, true, false, false, true, Tanh)

  /** Tags each encoder output with the index of the block that made it. */
  function Tag(trace: seq<Shape>): seq<Tensor>
  {
    seq(|trace|, k requires 0 <= k < |trace| => Tensor(k, trace[k]))
  }

  /** `s[:-1]`: everything but the last element (nothing, for an empty list). */
  function DropLast<T>(s: seq<T>): seq<T>
  {
    if s == [] then [] else s[..|s| - 1]
  }

  /** The skip list the decoder is zipped with: `reversed(skips[:-1])`. */
  function Skips(encoder: seq<Shape>): seq<Tensor>
  {
    Reverse(DropLast(Tag(encoder)))
  }

  /** The skip list holds every encoder output but the bottleneck, deepest
      first: entry k is the output of encoder block |encoder| - 2 - k. */
  lemma SkipsAt(encoder: seq<Shape>)
    ensures |Skips(encoder)| == if encoder == [] then 0 else |encoder| - 1
    ensures forall k :: 0 <= k < |Skips(encoder)| ==>
      Skips(encoder)[k] == Tensor(|encoder| - 2 - k, encoder[|encoder| - 2 - k])
  {
  }

  /** The tensor the decoder continues from after `links`. */
  function Current(x: Shape, links: seq<Link>): Shape
  {
    if links == [] then x else links[|links| - 1].merged
  }

  /** Link k joins decoder block k with `skip`, and the concatenation is
      well formed: same spatial size, channels added. */
  predicate Joined(link: Link, k: nat, skip: Tensor)
  {
    link.decoder == k && link.encoder == skip.producer &&
    link.upsampled.height == skip.shape.height && link.upsampled.width == skip.shape.width &&
    link.merged == Shape(skip.shape.height, skip.shape.width, link.upsampled.channels + skip.shape.channels)
  }

  /** The first `j` steps of `for up, skip in zip(up_stack, skips)`, starting
      from the bottleneck tensor `x`. */
  function Decode(x: Shape, up: seq<Layer>, skips: seq<Tensor>, j: nat): (r: Result<seq<Link>>)
    requires j <= |up| && j <= |skips|
    ensures r.Ok? ==> |r.value| == j && forall k :: 0 <= k < j ==> Joined(r.value[k], k, skips[k])
    decreases j
  {
    if j == 0 then Ok([])
    else
      match Decode(x, up, skips, j - 1)
      case Err(e) => Err(e)
      case Ok(links) =>
        match Apply(up[j - 1], Current(x, links))
        case Err(e) => Err(e)
        case Ok(y) =>
          match Concat(y, skips[j - 1].shape)
          case Err(e) => Err(e)
          case Ok(z) => Ok(links + [Link(j - 1, skips[j - 1].producer, y, z)])
  }

  /** One more step of the decoder loop. */
  lemma DecodeStep(x: Shape, up: seq<Layer>, skips: seq<Tensor>, j: nat, links: seq<Link>)
    requires j < |up| && j < |skips| && Decode(x, up, skips, j) == Ok(links)
    ensures Decode(x, up, skips, j + 1) ==
      match Apply(up[j], Current(x, links))
      case Err(e) => Err(e)
      case Ok(y) =>
        match Concat(y, skips[j].shape)
        case Err(e) => Err(e)
        case Ok(z) => Ok(links + [Link(j, skips[j].producer, y, z)])
  {
  }

  lemma {:induction false} DecodeErrorSticks(x: Shape, up: seq<Layer>, skips: seq<Tensor>, i: nat, j: nat, e: LayerError)
    requires i <= j <= |up| && j <= |skips| && Decode(x, up, skips, i) == Err(e)
    ensures Decode(x, up, skips, j) == Err(e)
    decreases j
  {
    if i < j {
      DecodeErrorSticks(x, up, skips, i, j - 1, e);
    }
  }

  /** The generator graph as a function of its input shape and its blocks. */
  function Wire(input: Shape, down: seq<Layer>, up: seq<Layer>, last: Layer): Result<Wiring>
  {
    match Trace(input, down)
    case Err(e) => Err(e)
    case Ok(encoder) =>
      var skips := Skips(encoder);
      var bottleneck := Final(input, encoder);
      match Decode(bottleneck, up, skips, if |up| < |skips| then |up| else |skips|)
      case Err(e) => Err(e)
      case Ok(links) =>
        match Apply(last, Current(bottleneck, links))
        case Err(e) => Err(e)
        case Ok(out) => Ok(Wiring(encoder, links, out))
  }

  /** The encoder loop `for down in down_stack: x = down(x);
      skips.append(x)`: returns the encoder's outputs, and the list of
      skips in the order they were appended, each tagged with its block. */
  method Encode(input: Shape, down: seq<Layer>) returns (r: Result<seq<Shape>>, skips: seq<Tensor>)
    ensures r == Trace(input, down)
    ensures r.Ok? ==> skips == Tag(r.value)
  {
    var x := input;
    skips := [];
    var encoder: seq<Shape> := [];
    for i := 0 to |down|
      invariant Trace(input, down[..i]) == Ok(encoder)
      invariant skips == Tag(encoder)
      invariant x == Final(input, encoder)
    {
      TraceStep(input, down, i, encoder);
      var y := Apply(down[i], x);
      if y.Err? {
        TraceErrorSticks(input, down, i + 1, y.error);
        return Err(y.error), skips;
      }
      x := y.value;
      skips := skips + [Tensor(i, x)];
      encoder := encoder + [x];
    }
    assert down[..|down|] == down;
    r := Ok(encoder);
  }

  /** The decoder loop `for up, skip in zip(up_stack, skips): x = up(x);
      x = Concatenate()([x, skip])` from the bottleneck `x`: returns the
      links in decoder order. */
  method Connect(x: Shape, up: seq<Layer>, skips: seq<Tensor>) returns (r: Result<seq<Link>>)
    ensures r == Decode(x, up, skips, if |up| < |skips| then |up| else |skips|)
  {
    var n := if |up| < |skips| then |up| else |skips|;
    var current := x;
    var links: seq<Link> := [];
    for j := 0 to n
      invariant Decode(x, up, skips, j) == Ok(links)
      invariant current == Current(x, links)
    {
      DecodeStep(x, up, skips, j, links);
      var y := Apply(up[j], current);
      if y.Err? {
        DecodeErrorSticks(x, up, skips, j + 1, n, y.error);
        return Err(y.error);
      }
      var z := Concat(y.value, skips[j].shape);
      if z.Err? {
        DecodeErrorSticks(x, up, skips, j + 1, n, z.error);
        return Err(z.error);
      }
      current := z.value;
      links := links + [Link(j, skips[j].producer, y.value, current)];
    }
    r := Ok(links);
  }

  /** Builds the generator as the source does: run the encoder collecting
      the skips, drop the bottleneck and reverse, zip with the decoder
      concatenating each decoder output with its skip, then apply the head.
      A layer that cannot be built stops construction. */
  method Generator(input: Shape, down: seq<Layer>, up: seq<Layer>, last: Layer) returns (r: Result<Wiring>)
    ensures r == Wire(input, down, up, last)
  {
    var encoded, skips := Encode(input, down);
    if encoded.Err? {
      return Err(encoded.error);
    }
    var encoder := encoded.value;
    var bottleneck := Final(input, encoder);
    var connected := Connect(bottleneck, up, Reverse(DropLast(skips)));
    if connected.Err? {
      return Err(connected.error);
    }
    var links := connected.value;
    var out := Apply(last, Current(bottleneck, links));
    if out.Err? {
      return Err(out.error);
    }
    WireOf(input, down, up, last, encoder, links, out.value);
    return Ok(Wiring(encoder, links, out.value));
  }

  function Pow2(k: nat): nat
  {
    if k == 0 then 1 else 2 * Pow2(k - 1)
  }

  predicate Square(s: Shape, n: nat)
  {
    s.height == n && s.width == n
  }

  lemma HalfPow2(k: nat)
    ensures CeilDiv(Pow2(k + 1), 2) == Pow2(k)
  {
    assert Pow2(k + 1) == 2 * Pow2(k);
  }

  /** Halving blocks take a 2^d square to 2^(d-1), 2^(d-2), ..., with the
      channels of each block. */
  lemma {:induction false} EncoderHalves(c: nat, down: seq<Layer>, d: nat)
    requires |down| <= d && forall i :: 0 <= i < |down| ==> Halving(down[i])
    ensures Trace(Shape(Pow2(d), Pow2(d), c), down).Ok?
    ensures forall i :: 0 <= i < |down| ==>
      Trace(Shape(Pow2(d), Pow2(d), c), down).value[i] == Shape(Pow2(d - 1 - i), Pow2(d - 1 - i), Filters(down[i]))
    decreases |down|
  {
    if down != [] {
      var m := |down| - 1;
      var x := Shape(Pow2(d), Pow2(d), c);
      EncoderHalves(c, down[..m], d);
      assert down == down[..m] + [down[m]];
      TraceSnoc(x, down[..m], down[m]);
      var t := Trace(x, down[..m]).value;
      assert Square(Final(x, t), Pow2(d - m));
      HalfPow2(d - m - 1);
    }
  }

  /** The skips of an encoder whose block i gave a 2^(d-1-i) square: skip k
      is encoder output d-2-k, a 2^(k+1) square. */
  lemma HalvingSkips(encoder: seq<Shape>, d: nat)
    requires d >= 1 && |encoder| == d
    requires forall i :: 0 <= i < d ==> Square(encoder[i], Pow2(d - 1 - i))
    ensures |Skips(encoder)| == d - 1
    ensures forall k :: 0 <= k < d - 1 ==>
      Skips(encoder)[k] == Tensor(d - 2 - k, encoder[d - 2 - k]) && Square(Skips(encoder)[k].shape, Pow2(k + 1))
  {
    SkipsAt(encoder);
    forall k | 0 <= k < d - 1
      ensures Square(Skips(encoder)[k].shape, Pow2(k + 1))
    {
      var i := d - 2 - k;
      assert Skips(encoder)[k].shape == encoder[i];
      assert d - 1 - i == k + 1;
    }
  }

  /** Decoder blocks that double the size, starting from a 1x1 bottleneck,
      meet skips of sizes 2, 4, 8, ...: every concatenation is well formed. */
  lemma {:induction false} DecoderDoubles(x: Shape, up: seq<Layer>, skips: seq<Tensor>, j: nat)
    requires j <= |up| && j <= |skips| && Square(x, 1)
    requires forall k :: 0 <= k < j ==> Doubling(up[k]) && Square(skips[k].shape, Pow2(k + 1))
    ensures Decode(x, up, skips, j).Ok?
    ensures forall k :: 0 <= k < j ==>
      Decode(x, up, skips, j).value[k].upsampled == Shape(Pow2(k + 1), Pow2(k + 1), Filters(up[k]))
    decreases j
  {
    if j > 0 {
      DecoderDoubles(x, up, skips, j - 1);
      var links := Decode(x, up, skips, j - 1).value;
      assert Square(Current(x, links), Pow2(j - 1));
      assert Pow2(j) == 2 * Pow2(j - 1);
    }
  }

  /** The decoder half of a U-Net over an encoder whose block i gave a
      2^(d-1-i) square: link k pairs decoder block k with encoder block
      d-2-k and merges them into a 2^(k+1) square with both channel counts;
      the last merge is a 2^(d-1) square. */
  lemma DecodedLinks(d: nat, down: seq<Layer>, up: seq<Layer>, encoder: seq<Shape>)
    requires d >= 1 && |down| == d && |up| == d - 1 && |encoder| == d
    requires forall i :: 0 <= i < d ==> encoder[i] == Shape(Pow2(d - 1 - i), Pow2(d - 1 - i), Filters(down[i]))
    requires forall k :: 0 <= k < d - 1 ==> Doubling(up[k])
    ensures |Skips(encoder)| == d - 1
    ensures Decode(encoder[d - 1], up, Skips(encoder), d - 1).Ok?
    ensures var links := Decode(encoder[d - 1], up, Skips(encoder), d - 1).value;
      |links| == d - 1 &&
      (forall k :: 0 <= k < d - 1 ==>
        links[k].decoder == k && links[k].encoder == d - 2 - k &&
        links[k].merged == Shape(Pow2(k + 1), Pow2(k + 1), Filters(up[k]) + Filters(down[d - 2 - k]))) &&
      Square(Current(encoder[d - 1], links), Pow2(d - 1))
  {
    forall i | 0 <= i < d
      ensures Square(encoder[i], Pow2(d - 1 - i))
    {
    }
    HalvingSkips(encoder, d);
    var skips := Skips(encoder);
    var bottleneck := encoder[d - 1];
    assert Square(bottleneck, 1);
    DecoderDoubles(bottleneck, up, skips, d - 1);
    var links := Decode(bottleneck, up, skips, d - 1).value;
    forall k | 0 <= k < d - 1
      ensures links[k].merged == Shape(Pow2(k + 1), Pow2(k + 1), Filters(up[k]) + Filters(down[d - 2 - k]))
    {
      assert Joined(links[k], k, skips[k]);
    }
    if d > 1 {
      assert Joined(links[d - 2], d - 2, skips[d - 2]);
    }
  }

  /** The graph of a U-Net of depth d over a 2^d square: encoder block i
      gives 2^(d-1-i) with its own channels; decoder block k is paired with
      encoder block d-2-k, never with the bottleneck d-1, and the merge is a
      2^(k+1) square with both blocks' channels; the output is 2^d square
      with the head's channels. */
  predicate UNetWiring(w: Wiring, d: nat, down: seq<Layer>, up: seq<Layer>, last: Layer)
    requires d >= 1 && |down| == d && |up| == d - 1
  {
    |w.encoder| == d && |w.links| == d - 1 &&
    (forall i :: 0 <= i < d ==> w.encoder[i] == Shape(Pow2(d - 1 - i), Pow2(d - 1 - i), Filters(down[i]))) &&
    (forall k :: 0 <= k < d - 1 ==>
      w.links[k].decoder == k && w.links[k].encoder == d - 2 - k && w.links[k].encoder != d - 1 &&
      w.links[k].merged == Shape(Pow2(k + 1), Pow2(k + 1), Filters(up[k]) + Filters(down[d - 2 - k]))) &&
    w.output == Shape(Pow2(d), Pow2(d), Filters(last))
  }

  /** The U-Net built from d halving blocks, d - 1 doubling blocks and a
      doubling head over a 2^d square: encoder block i gives 2^(d-1-i);
      decoder block k is paired with encoder block d-2-k (so the bottleneck
      d-1 is never a skip and every other encoder output is used by exactly
      one decoder block); each concatenation has size 2^(k+1) and the sum of
      the two blocks' channels; the output has the input's spatial size. */
  lemma UNetShapes(d: nat, c: nat, down: seq<Layer>, up: seq<Layer>, last: Layer)
    requires d >= 1 && |down| == d && |up| == d - 1
    requires forall i :: 0 <= i < d ==> Halving(down[i])
    requires forall k :: 0 <= k < d - 1 ==> Doubling(up[k])
    requires Doubling(last)
    ensures Wire(Shape(Pow2(d), Pow2(d), c), down, up, last).Ok?
    ensures UNetWiring(Wire(Shape(Pow2(d), Pow2(d), c), down, up, last).value, d, down, up, last)
  {
    var input := Shape(Pow2(d), Pow2(d), c);
    EncoderHalves(c, down, d);
    var encoder := Trace(input, down).value;
    DecodedLinks(d, down, up, encoder);
    var links := Decode(encoder[d - 1], up, Skips(encoder), d - 1).value;
    var out := Shape(Pow2(d), Pow2(d), Filters(last));
    HeadDoubles(last, Current(encoder[d - 1], links), d);
    assert Final(input, encoder) == encoder[d - 1];
    WireOf(input, down, up, last, encoder, links, out);
  }

  /** A doubling head takes the last 2^(d-1) merge to 2^d. */
  lemma HeadDoubles(last: Layer, current: Shape, d: nat)
    requires d >= 1 && Doubling(last) && Square(current, Pow2(d - 1))
    ensures Apply(last, current) == Ok(Shape(Pow2(d), Pow2(d), Filters(last)))
  {
    assert Pow2(d) == 2 * Pow2(d - 1);
  }

  /** The graph `Wire` builds, from the results of its three stages. */
  lemma WireOf(input: Shape, down: seq<Layer>, up: seq<Layer>, last: Layer,
               encoder: seq<Shape>, links: seq<Link>, out: Shape)
    requires Trace(input, down) == Ok(encoder)
    requires var skips := Skips(encoder);
      Decode(Final(input, encoder), up, skips, if |up| < |skips| then |up| else |skips|) == Ok(links)
    requires Apply(last, Current(Final(input, encoder), links)) == Ok(out)
    ensures Wire(input, down, up, last) == Ok(Wiring(encoder, links, out))
  {
  }

  /** The shapes produced by each concatenation, in decoder order. */
  function Merged(links: seq<Link>): seq<Shape>
  {
    seq(|links|, k requires 0 <= k < |links| => links[k].merged)
  }

  /** The block configurations of the two stacks: kernel 4 throughout; only
      the first encoder block omits batch normalisation; only the first
      three decoder blocks apply dropout. */
  lemma StackConfigs()
    ensures |DownStack| == 8 && |UpStack| == 7
    ensures forall i :: 0 <= i < 8 ==>
      Halving(DownStack[i]) && DownStack[i].kernel == 4 && (DownStack[i].batchNorm <==> i != 0) && !DownStack[i].dropout
    ensures forall k :: 0 <= k < 7 ==>
      Doubling(UpStack[k]) && UpStack[k].kernel == 4 && UpStack[k].batchNorm && (UpStack[k].dropout <==> k < 3)
    ensures Doubling(LastLayer) && LastLayer.filters == 3 && !LastLayer.batchNorm && LastLayer.activation == Tanh
  {
  }

  /** The generator of both notebooks: from a 256x256x3 input the encoder
      gives 128, 64, ..., 1 with channels 64, 128, 256, 512, ...; decoder
      block k pairs with encoder block 6 - k; the concatenations give
      2x2x1024 up to 128x128x128; the output is 256x256x3, the input's shape. */
  lemma GeneratorShapes()
    ensures Wire(InputShape, DownStack, UpStack, LastLayer).Ok?
    ensures var w := Wire(InputShape, DownStack, UpStack, LastLayer).value;
      w.encoder == [Shape(128, 128, 64), Shape(64, 64, 128), Shape(32, 32, 256), Shape(16, 16, 512),
                    Shape(8, 8, 512), Shape(4, 4, 512), Shape(2, 2, 512), Shape(1, 1, 512)] &&
      |w.links| == 7 && (forall k :: 0 <= k < 7 ==> w.links[k].decoder == k && w.links[k].encoder == 6 - k) &&
      Merged(w.links) == [Shape(2, 2, 1024), Shape(4, 4, 1024), Shape(8, 8, 1024), Shape(16, 16, 1024),
                          Shape(32, 32, 512), Shape(64, 64, 256), Shape(128, 128, 128)] &&
      w.output == InputShape
  {
    StackConfigs();
    assert Pow2(8) == 256;
    UNetShapes(8, 3, DownStack, UpStack, LastLayer);
    Generator256(Wire(InputShape, DownStack, UpStack, LastLayer).value);
  }

  /** The concrete graph, read off the general one. */
  lemma Generator256(w: Wiring)
    requires UNetWiring(w, 8, DownStack, UpStack, LastLayer)
    ensures w.encoder == [Shape(128, 128, 64), Shape(64, 64, 128), Shape(32, 32, 256), Shape(16, 16, 512),
                          Shape(8, 8, 512), Shape(4, 4, 512), Shape(2, 2, 512), Shape(1, 1, 512)]
    ensures |w.links| == 7 && forall k :: 0 <= k < 7 ==> w.links[k].decoder == k && w.links[k].encoder == 6 - k
    ensures Merged(w.links) == [Shape(2, 2, 1024), Shape(4, 4, 1024), Shape(8, 8, 1024), Shape(16, 16, 1024),
                                Shape(32, 32, 512), Shape(64, 64, 256), Shape(128, 128, 128)]
    ensures w.output == InputShape
  {
    assert Pow2(8) == 256;
    EncoderList(8, DownStack, w.encoder);
    MergedList(8, DownStack, UpStack, w.links);
  }

  /** The encoder outputs of the 256x256 generator, written out. */
  lemma EncoderList(d: nat, down: seq<Layer>, encoder: seq<Shape>)
    requires d == 8 && down == DownStack && |encoder| == d
    requires forall i :: 0 <= i < d ==> encoder[i] == Shape(Pow2(d - 1 - i), Pow2(d - 1 - i), Filters(down[i]))
    ensures encoder == [Shape(128, 128, 64), Shape(64, 64, 128), Shape(32, 32, 256), Shape(16, 16, 512),
                        Shape(8, 8, 512), Shape(4, 4, 512), Shape(2, 2, 512), Shape(1, 1, 512)]
  {
    assert encoder[0] == Shape(Pow2(7), Pow2(7), 64);
    assert encoder[1] == Shape(Pow2(6), Pow2(6), 128);
    assert encoder[2] == Shape(Pow2(5), Pow2(5), 256);
    assert encoder[3] == Shape(Pow2(4), Pow2(4), 512);
    assert encoder[4] == Shape(Pow2(3), Pow2(3), 512);
    assert encoder[5] == Shape(Pow2(2), Pow2(2), 512);
    assert encoder[6] == Shape(Pow2(1), Pow2(1), 512);
    assert encoder[7] == Shape(Pow2(0), Pow2(0), 512);
  }

  /** The concatenations of the 256x256 generator, written out. */
  lemma MergedList(d: nat, down: seq<Layer>, up: seq<Layer>, links: seq<Link>)
    requires d == 8 && down == DownStack && up == UpStack && |links| == d - 1
    requires forall k :: 0 <= k < d - 1 ==>
      links[k].decoder == k && links[k].encoder == d - 2 - k &&
      links[k].merged == Shape(Pow2(k + 1), Pow2(k + 1), Filters(up[k]) + Filters(down[d - 2 - k]))
    ensures forall k :: 0 <= k < 7 ==> links[k].decoder == k && links[k].encoder == 6 - k
    ensures Merged(links) == [Shape(2, 2, 1024), Shape(4, 4, 1024), Shape(8, 8, 1024), Shape(16, 16, 1024),
                              Shape(32, 32, 512), Shape(64, 64, 256), Shape(128, 128, 128)]
  {
    assert links[0].merged == Shape(Pow2(1), Pow2(1), 512 + 512);
    assert links[1].merged == Shape(Pow2(2), Pow2(2), 512 + 512);
    assert links[2].merged == Shape(Pow2(3), Pow2(3), 512 + 512);
    assert links[3].merged == Shape(Pow2(4), Pow2(4), 512 + 512);
    assert links[4].merged == Shape(Pow2(5), Pow2(5), 256 + 256);
    assert links[5].merged == Shape(Pow2(6), Pow2(6), 128 + 128);
    assert links[6].merged == Shape(Pow2(7), Pow2(7), 64 + 64);
  }
}
