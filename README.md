# pix2pix integer core, modelled in Dafny

Two notebooks use a pix2pix conditional GAN on brain MRI. `pix2pix.py`
trains it to convert T2 slices to T1. Its data are composites that hold an
input and a target image side by side. `T1_to_T2.py` builds the same two
networks, restores a saved checkpoint and only runs inference, on single
T1 and T2 bitmaps. It has no training loop. This project models only the
integer logic around the two networks:

- the Keras shape rules of the layers;
- the configuration records of the `downsample` / `upsample` blocks;
- the hand-wired U-Net generator, with its skip list built by a loop;
- the PatchGAN discriminator chain and its 70x70 receptive field;
- the image-pair geometry of `load`, `resize`, `random_crop`, the flip and `random_jitter`;
- the inference notebook's single-image `load_image`;
- the epoch/checkpoint schedule of `fit`.

Tensor values, losses and training dynamics are not modelled.

The generator, the discriminator and the two block factories are the same
functions in both notebooks: `T1_to_T2.py:83-174` and `T1_to_T2.py:220-246`
define them exactly as `pix2pix.py:208-306` and `pix2pix.py:355-381` do. Only
the surrounding demo lines differ. One model covers both, and the table
cites whichever copy a member is read against.

Modules:

- `Layers` (`layers.dfy`): shapes, block records, the per-layer shape rules, and running a chain of layers (`Trace`).
- `UNet` (`unet.dfy`):
  - the generator, as the imperative method `Generator`;
  - the specification function `Wire`;
  - a general theorem for a U-Net of any depth d over a 2^d input, and its instance for the notebooks' 256x256 generator.
- `PatchGan` (`patchgan.dfy`):
  - the discriminator's shape chain for inputs of any size, and its instance for 256x256 inputs;
  - the receptive-field recurrence, proved equal to an independent backward window computation.
- `Images` (`images.dfy`): images as rows of opaque pixels; the split, resize, crop, flip and jitter; the composite notebook's train/test load pipelines.
- `Mri` (`mri.dfy`): `load_image` of the inference notebook (`T1_to_T2.py`).
- `Training` (`training.dfy`): the `fit` loop as a method that returns the sequence of training steps and saves, with its counters.
- `Seqs` (`seqs.dfy`): sequence reversal, used by the skip list and the flip.

Random draws are parameters:

- the two uniform integers behind `tf.image.random_crop` (the offset it takes is the draw modulo the number of positions);
- the flip coin `tf.random.uniform(()) > 0.5`, as the Boolean `mirror`.

## Model

| member | source | states |
|---|---|---|
| Layers.DownsampleHalves | pix2pix.py:208-221 | The encoder block is a stride-2 `same` convolution with kernel `size`, no bias and a leaky ReLU. It has batch norm exactly when `apply_batchnorm` and never dropout. It takes an h x w input to ceil(h/2) x ceil(w/2) x filters. |
| Layers.UpsampleDoubles | T1_to_T2.py:102-119 | The decoder block is a stride-2 `same` transposed convolution with kernel `size`, no bias, batch norm always and a ReLU. It has dropout exactly when `apply_dropout`. It takes h x w to 2h x 2w x filters. |
| Layers.TraceSnoc | pix2pix.py:292-295 | Applying layers one at a time and recording each output (the `for down in down_stack` loop) gives the chain's full trace. A failing layer makes the whole chain fail. |
| UNet.SkipsAt | pix2pix.py:292-297 | `reversed(skips[:-1])` holds all encoder outputs except the last, deepest first. Entry k is the output of encoder block n-2-k. |
| UNet.Decode | pix2pix.py:300-302 | Each step of the zip of decoder blocks with skips joins decoder block k with skip k. The two tensors have the same spatial size, and the result has their channels added. |
| UNet.Encode | pix2pix.py:292-295 | The encoder loop returns exactly the chain's trace: each block's output in order, or the first error. On success the skip list holds every output in the order appended, each tagged with its block. |
| UNet.Connect | pix2pix.py:300-302 | The decoder loop over `zip(up_stack, skips)` returns exactly the links `Decode` specifies for the shorter of the two lists, or the first error. |
| UNet.Generator | pix2pix.py:258-306 | The generator graph (the recorded encoder outputs, the decoder/skip links and the output shape) is exactly what the wiring function `Wire` specifies. It is built by running the encoder, dropping the bottleneck from the skips and reversing them, connecting, and applying the head. Construction fails at the first layer that cannot be built. |
| UNet.EncoderHalves | pix2pix.py:261-270 | From a 2^d square, halving blocks give 2^(d-1), 2^(d-2), ..., each with its own block's channel count. |
| UNet.HalvingSkips | pix2pix.py:297 | For such an encoder, skip k is encoder output d-2-k and is a 2^(k+1) square. |
| UNet.DecoderDoubles | pix2pix.py:272-302 | Doubling decoder blocks from a 1x1 bottleneck meet skips of sizes 2, 4, 8, ... The whole decoder builds, and decoder output k is 2^(k+1) square with that block's channels. |
| UNet.DecodedLinks | pix2pix.py:297-302 | Over an encoder of d halving outputs, the zip gives d-1 links. Link k pairs decoder block k with encoder block d-2-k and merges into a 2^(k+1) square with both channel counts. |
| UNet.UNetShapes | T1_to_T2.py:126-174 | The U-Net has d halving blocks, d-1 doubling blocks and a doubling head over a 2^d input. For any such U-Net the graph builds and satisfies `UNetWiring`. Encoder block i gives 2^(d-1-i). Decoder block k is paired with encoder block d-2-k, the bottleneck d-1 is never a skip, and every other encoder output is used exactly once. Link k is 2^(k+1) square with the two blocks' channels summed. The output has the input's spatial size and the head's channels. |
| UNet.StackConfigs | pix2pix.py:261-287 | There are 8 encoder and 7 decoder blocks, all with kernel 4. Only encoder block 0 lacks batch norm, and only decoder blocks 0-2 have dropout. The head is a doubling transposed convolution to 3 channels with tanh. |
| UNet.GeneratorShapes | pix2pix.py:258-306 | For a 256x256x3 input the encoder gives 128x128x64, ..., 1x1x512 and decoder block k pairs with encoder block 6-k. The concatenations are 2x2x1024, 4x4x1024, 8x8x1024, 16x16x1024, 32x32x512, 64x64x256 and 128x128x128. The output is 256x256x3. |
| UNet.Generator256 | pix2pix.py:261-287 | The general U-Net facts at depth 8 with the notebooks' stacks give the concrete encoder list, the pairing 6-k and the list of concatenation shapes. |
| PatchGan.HeadShapes | pix2pix.py:367-379 | Over an h x w tensor, padding, the valid 4x4 conv to 512, padding and the valid 4x4 conv to 1 give h+2, h-1, h+1 and h-2. They build exactly when h >= 3 and w >= 3. |
| PatchGan.ChainShapes | pix2pix.py:361-379 | For a concatenated input of any size, with m = ceil(n/8), the chain gives ceil(n/2), ceil(n/4), m, m+2, m-1, m+1 and m-2. It builds exactly when m >= 3 on both axes and otherwise fails because a kernel is larger than its input. |
| PatchGan.DiscriminatorOutput | T1_to_T2.py:220-246 | The discriminator builds exactly when the two inputs have the same spatial size and ceil(n/8)-2 >= 1 on both axes. Its input then has the two channel counts added, and the grid is (ceil(h/8)-2) x (ceil(w/8)-2) x 1. |
| PatchGan.DiscriminatorShapes | pix2pix.py:355-381 | Two 256x256x3 images give 256x256x6, then 128x128x64, 64x64x128, 32x32x256, 34x34x256, 31x31x512, 33x33x512 and 30x30x1. |
| PatchGan.ReceptiveFieldIsWindow | pix2pix.py:363-379 | The forward recurrence r += (k-1)*jump, jump *= s over any layer chain equals the width of the input window that one output cell depends on, computed backwards from the output. |
| PatchGan.PatchSize | pix2pix.py:346-379 | Each output cell of the discriminator sees a 70x70 patch of its input, and neighbouring cells are 8 input pixels apart. |
| Images.Load | pix2pix.py:64-77 | With half = w // 2, the target is columns [0, half) and the input is columns [half, w), of widths half and w - half. Every pixel of the composite lands in exactly one of them at the stated position. |
| Images.LoadRoundTrip | pix2pix.py:68-72 | Putting the target back to the left of the input rebuilds the composite, so the split neither loses nor duplicates a column. |
| Images.Resize | pix2pix.py:100-106 | The result has the requested size. Every output pixel is the source pixel at a row and column that depend only on the two sizes, and those lie inside the source. |
| Images.ResizePair | pix2pix.py:100-106 | Both images of a pair come out at the requested size. |
| Images.ResizeCovers | T1_to_T2.py:40-43 | Enlarging never drops a source row or column: each one is read by output row ceil(c*dst/src). |
| Images.CropOffset | pix2pix.py:108-113 | The crop offset along an axis always leaves room for the whole crop. |
| Images.RandomCrop | pix2pix.py:108-113 | The crop fails on a stack whose images differ in size and on one smaller than 256x256, and succeeds otherwise. On success both images are cut 256x256 at the same offset. |
| Images.FlipLeftRight | pix2pix.py:130-133 | The flip keeps the number of rows and each row's length, and on a row of width w, pixel j becomes pixel w-1-j. |
| Images.FlipMirrors | pix2pix.py:130-133 | On a w-wide image, pixel j of a flipped row is pixel w-1-j of the original. Flipping twice gives the image back. |
| Images.CropAndFlip | pix2pix.py:128-133 | On a 286x286 pair, one window at one offset in [0, 30] x [0, 30] is cut from both images. One flip decision applies to both, and the outputs are 256x256. |
| Images.RandomJitter | pix2pix.py:123-135 | Both images come out 256x256 with crop offsets in [0, 30]. Each output pixel of either image is the pixel of its 286x286 resize at the same row and the same (flipped or not) column. |
| Images.JitterCorrespondence | pix2pix.py:123-135 | For two images of the same size, output pixel (i, j) of both comes from one and the same position (JitterRow, JitterCol) of the two originals. |
| Images.LoadImageTest | pix2pix.py:168-174 | Both images come out 256x256. The target reads the composite's left half and the input its right half, at the same rows, with each half's columns sampled by its own width. |
| Images.LoadImageTrain | pix2pix.py:161-166 | Both images come out 256x256. |
| Images.LoadImageTrainPixel | pix2pix.py:161-166 | Output pixel (i, j) of the target comes from the composite's left half and that of the input from its right half, at the same row. Each half is stretched by its own width. For an odd width the halves differ by one column, so the two images are stretched slightly differently. |
| Mri.LoadImage | T1_to_T2.py:57-61 | Whatever the decoded size, the slice comes out 256x256. Every pixel comes from the whole decoded image; nothing is split off. |
| Mri.LoadImageKeepsEveryPixel | T1_to_T2.py:30-37 | For a slice of at most 256x256, every decoded pixel, in either half, appears in the loaded image. |
| Training.Fit | pix2pix.py:543-567 | The nested loop emits exactly the schedule: one training step per batch of every epoch, then a save after epoch e when (e+1) % 20 == 0, then a final save. It has performed epochs*batches steps and epochs/20 + 1 saves, and these agree with the counts in the emitted sequence. |
| Training.ScheduleCounts | pix2pix.py:544-567 | The schedule holds epochs*batches training steps and epochs/20 + 1 saves. |
| Training.ScheduleMembers | pix2pix.py:554-563 | Step (e, n) occurs exactly when e < epochs and n < batches. A save after k epochs occurs exactly when k = epochs or k is a positive multiple of 20 not above epochs. |
| Training.ScheduleInOrder | pix2pix.py:544-567 | The steps come in (epoch, batch) order, so each occurs once and receives its own epoch index. Each save follows the steps of the epochs it counts and precedes later epochs, and the final save is last. |
| Training.DefaultSchedule | pix2pix.py:583-584 | With `EPOCHS = 20` there are 20*batches steps and two saves, both after epoch 20 and both at the end. |

## Left out

- Tensor numerics are not modelled: convolution values, batch-norm statistics, the nonlinearities, dropout masks and weight initialisation. Normalisation, activations and dropout appear only as flags in the block records, because they never change a shape.
- The loss functions, `normalize`, the optimisers, gradient tapes and `train_step`'s body are floating-point work inside the library. `fit` models each `train_step` call only as an event carrying its epoch and batch index.
- Checkpoint saving and restoring, summary writing, printing, timing, display and `generate_images` are I/O. `fit` records a save as an event; the per-epoch preview, `print` and clock reads are not modelled.
- The `tf.data` pipelines (file listing, shuffle, batch, parallel map) are not modelled. Their file order is unspecified, and a dataset is represented by its number of batches.
- Images.Resize: claims the output size and a sampling grid that depends only on the two sizes, not the library's exact nearest-neighbour rounding. `SourceIndex` (`i*src/dst`, rounding down) stands for that grid; the library may round from pixel centres instead, which can pick a neighbouring source pixel. `ResizeCovers` and `Mri.LoadImageKeepsEveryPixel` are stated for the model's grid. Resizing an empty image is excluded by the precondition.
- Images.RandomCrop: models the offset as the draw modulo the number of positions. The crop on the stack axis and the channel axis has only one offset and is left implicit.
- Layers.Apply: a valid convolution over an input smaller than its kernel is reported as an error (`KernelTooLarge`). A zero kernel or stride is reported as `BadConfig`. The library's own exception types are not modelled.
- Mri.LoadImage: the `tf.cast` to float and the `image[:, :, :]` slice change no pixel position and are identities here. BMP decoding is I/O.
- `T1_to_T2.py:330` iterates over `test_dataset`, which that notebook never defines. That cell is not modelled.
- The skip tensors are identified by the index of the encoder block that produced them (`Tensor.producer`). Keras object identity is not modelled.
