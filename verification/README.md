# Verification of the gralloc buffer allocator

A Dafny model of the parts of this gralloc that decide what a buffer looks like and who may touch it, with proofs.
`dafny verify dfyconfig.toml` checks everything.

The model has four parts.

* **Layout.** `Layout` is the engine behind `calc_allocation_size`: functions give every plane's dimensions, byte
  stride, header, body and offset for the linear, AFBC, AFRC and 16x16 block-linear families, and
  `CalcAllocationSize` is the source's loop over an array of planes, proved to compute them. `PlaneOrder`,
  `LinearLayout`, `StrideLaws`, `CpuStrides`, `AfbcLayout`, `TiledLayout`, `CpuTiles`, `CompressedSizes`,
  `VideoGrowth`, `LayoutGrowth`, `LayoutBounds` and `Layers` prove what the rest of the allocator relies on;
  `FormatDepths` checks the format table against the samples of a pixel, and `OddStride` ties one bit trick of the
  source to its arithmetic. `AfbcHeaders` writes the AFBC headers into the mapped bytes and `LayerHeaders` says what
  that leaves of the other layers. `Access`, `MemoryOrder` and `SampleSafety` follow a lock from the accepted region
  to the bytes of each sample. `Derive` joins dimension adjustment, layout, the Rockchip enlargement and layers.
* **Selection.** `Capabilities`, `ModifierFlags`, `AfbcSelection`, `Selection`, `BestFormat` and `SelectFormat` with
  `SelectionLaws` are the Arm selector, `RkSelection`, `RkOutcomes` and `FbSize` the Rockchip one. Both feed the
  same layout engine, and the theorems say when their choice is accepted there. `DerivedBuffers` has requests on
  which a law of the layout fails.
* **Life cycle.** `BufferLife` is import, lock, unlock and free of one process as a state machine with the kernel's
  descriptors and mappings; `BufferRuns` has the theorems over whole runs; `Mapper` is the code, with handle objects and
  a pool, each call proved to be one step.
* **Encodings.** `DrmModifier` with its decoder, and `DescriptorCodec`.

Conventions. Sizes are unbounded naturals; `LayoutBounds` proves that up to 8192 x 8192 they fit the C types. Where
wrap-around matters (lock regions, the presence mask, header words) it is written out. Products and quotients of two
variables are written `Mul` and `Div`, so that proofs can hide them with `hide` and argue with the lemmas of `Alignment`.
Usage and modifier words are bit-vectors; sets of IPs, support flags and modifier flags are sets. Format identifiers are
an enumeration: their numbers come from platform headers and only tell formats apart. Capability files and Android
properties are arbitrary values. A pointer into a mapping is its offset.

What the proofs found, stated as exact conditions or concrete inputs in the table below:

* NV12 with two stride flags at once gets zero strides and an empty buffer that any lock of it overruns.
* NV15 and NV30 rows are truncated when the even width is not a multiple of four, although the code asserts otherwise;
  they overrun their stride exactly when none of the later roundings makes up for it.
* The pixel stride of depths with a factor of three or five is truncated for most widths under a stride flag, although
  the code asserts otherwise; that of BGR_888 also with hardware usage, as its CPU alignment is dropped.
* YV12's chroma stride law fails under stride flags for odd multiples of 256, and without hardware usage for some widths
  under the flags for 64 and 128.
* The video enlargement divides by zero for the two AFBC-only interleaved formats when a stride usage is set.
* The Rockchip selector picks AFBC without looking at the format table, so some requests (NV21 for sampling, BLOB for the
  GPU) are refused that a linear buffer would serve.
* AFRC Y8, which only a forced format reaches, is reported to DRM as linear.
* A request that forces AFBC, AFRC or block-linear and also asks for CPU usage gets planes aligned for the CPU only:
  too few AFBC superblocks are counted, and AFRC and block-linear bodies lose the edge of the picture.
* Where the Rockchip selector chooses AFBC, a forced AFRC format gets the AFBC bit as well and is laid out as AFBC.
* Three-plane formats report the third plane's offset as the size of the second plane.
* A read-only lock over a write lock lets a second writer in, and a failed cache flush leaves the lock count too high.
* `validate_afbc_format` is not idempotent on flags that get_afbc_format never builds.
* Only the first layer's AFBC headers are initialised: the plane loop writes at the plane offsets of one layer. In zeroed
  memory that is enough for tiled headers, except where subsampled chroma shares the plane.

## Model

| member | source | states |
|---|---|---|
| `Alignment.AlignDivides` | src/helper_functions.h:27 | GRALLOC_ALIGN yields a multiple of the base |
| `Alignment.AlignLeast` | src/helper_functions.h:27 | it is the least multiple of the base that is not below the value |
| `Alignment.AlignMonotone` | src/helper_functions.h:27 | rounding is monotone in the value |
| `Alignment.AlignNested` | src/helper_functions.h:27 | rounding to a fine grid first does not change the rounding to a coarser grid it divides |
| `Alignment.SubsampleCovers` | src/core/buffer_allocation.cpp:424-434 | dividing an aligned size by the subsampling is exact and still covers every sample site of the requested size |
| `Euclid.ComputeGcd` | src/core/buffer_allocation.cpp:502-525 | Euclid's loop, with its early exit and swap, returns a common divisor that no common divisor exceeds |
| `Euclid.GcdGreatest` | src/core/buffer_allocation.cpp:502-525 | every common divisor divides the gcd (through Bezout coefficients) |
| `Euclid.Bezout` | src/core/buffer_allocation.cpp:502-525 | the gcd is an integer combination of its arguments |
| `Euclid.ComputeLcm` | src/core/buffer_allocation.cpp:527-535 | lcm is a common multiple dividing every other one; with a zero argument it is the other argument |
| `Euclid.LcmIsLeastCommonMultiple` | src/core/buffer_allocation.cpp:527-535 | the quotient a b / gcd is exact and is the least common multiple |
| `Formats.TableWellFormed` | src/core/format_info.cpp:34-381 | every table row meets what the allocation code relies on: non-zero divisors, subsampling that divides the alignment, packed depths, bounded depths |
| `Formats.RowsAreUnique` | src/core/format_info.cpp:34-381 | no identifier has two rows |
| `Formats.RowsAreComplete` | src/core/format_info.cpp:34-381 | every identifier with a row is found at its row |
| `FormatDepths.DepthsAreTheSamples` | src/core/format_info.cpp:34-381 | the uncompressed depth of every plane is the bits of its samples: those of a pixel, or of the pixels that share chroma, in formats of one plane, and whole samples of each component elsewhere, ten-bit ones padded to 16 except in NV15 and NV30 |
| `FormatDepths.CompressedDepths` | src/core/format_info.cpp:34-381 | compressed samples are not padded: an AFBC plane has the bits of its components, chroma counted once for the pixels that share it |
| `Usages.UsageQuestions` | src/usages.h:296-324 | bit by bit, which usage words count as CPU, hardware, front-buffer and no-AFBC usage, the last two depending on bit 30 |
| `Usages.StrideBits` | src/usages.h:84-104 | which alignment each of the four stride bits asks for, and that two at once conflict |
| `Formats.GetFormatInfo` | src/core/format_info.cpp:998-1010 | first-match search finds exactly the row of the identifier, and only well-formed rows |
| `AllocTypes.GetAllocType` | src/core/buffer_allocation.cpp:186-334 | the step-by-step construction yields the specified allocation type or rejection in every case |
| `AllocTypes.AfrcClumps` | src/core/buffer_allocation.cpp:274-334 | clump extents are defined plane by plane exactly when every plane stores one to four components |
| `AllocTypes.AcceptedTypesFit` | src/core/buffer_allocation.cpp:186-334 | what get_alloc_type produces and validate_format accepts has the shape the layout needs: multi-plane and extra-wide imply tiled headers, AFRC units and clumps have their legal sizes |
| `Layout.SaneIsComputable` | src/core/buffer_allocation.cpp:595-917 | for an accepted type on a well-formed row no divisor of the computation is zero |
| `Layout.GetPixelWH` | src/core/buffer_allocation.cpp:413-500 | the in-place rewriting of width and height yields the aligned, subsampled, padded plane dimensions |
| `Layout.UncompressedStride` | src/core/buffer_allocation.cpp:664-808 | the uncompressed branch, with its lcm, NV12, YV12, stride-flag and NV30 cases, yields the specified stride |
| `Layout.CalcAllocationSize` | src/core/buffer_allocation.cpp:595-917 | the loop fills exactly the planes in use with offset, stride and dimensions, and returns the total size and the pixel stride |
| `OddStride.OddBitsAreLeast` | src/core/buffer_allocation.cpp:739-741 | on 32-bit words the source's bit expression (add 255, clear the low eight bits, set bit 8) gives a word with the low nine bits 0x100 that is not below x, and the least such word, if x + 255 fits |
| `OddStride.OddMultipleIsLeast` | src/core/buffer_allocation.cpp:788-790 | the arithmetic form the layout uses is the least odd multiple of 256 that is not below x |
| `OddStride.OddBitsAgree` | src/core/buffer_allocation.cpp:739-741 | the two agree bit for bit: a word holding x + 255 is turned into a word holding the layout's value |
| `PlaneOrder.PlanesInOrder` | src/core/buffer_allocation.cpp:609-915 | every plane ends, header and body included, before any later plane starts |
| `PlaneOrder.PlanesPartitionTheBuffer` | src/core/buffer_allocation.cpp:602-915 | the first plane starts at zero, the last one ends exactly at the size, and no byte belongs to two planes |
| `LinearLayout.RowsFitExactlyWhen` | src/core/buffer_allocation.cpp:664-808 | for every uncompressed request, every row of the requested, subsampled picture fits its stride and all rows fit the plane, if and only if the request is not NV12 with two stride flags at once and the rows are not ten-bit rows cut short: NV15 or NV30, width 2 modulo 4 (or 1 for chroma), and the truncated stride already on the grid of every rounding |
| `LinearLayout.WholeBytesExactlyWhen` | src/core/buffer_allocation.cpp:664-667 | the assertion that aligned rows are whole bytes holds for every plane if and only if the format is not NV15 or NV30, or its width rounded up to even is a multiple of four |
| `RkSelection.Nv15TextureRowIsCut` | src/core/buffer_allocation.cpp:664-667 | a 410 pixel wide ten-bit video texture is derived with a luma stride its rows do not fit |
| `LinearLayout.Nv12RowsFit` | src/core/buffer_allocation.cpp:721-758 | an NV12 row fits its requested stride exactly when only one stride flag is set or there is nothing to fit |
| `StrideLaws.StridesHonourAlignments` | src/core/buffer_allocation.cpp:673-719 | without stride flags, for untiled formats whose CPU alignment is neither dropped nor cut, every stride is a multiple of the least common multiple of both alignments |
| `CpuStrides.CpuAlignmentExactlyWhen` | src/core/buffer_allocation.cpp:698-808 | for every uncompressed format and plane, under every stride flag, the stride is a multiple of the CPU alignment the source computes, if and only if that alignment has no factor of three or five or the row takes a multiple of that many grains of the last rounding |
| `StrideLaws.HardwareStridesAreAligned` | src/core/buffer_allocation.cpp:681-808 | with hardware usage, unless a video format brings its own stride usage, every stride is a multiple of 128 bytes for YUV and of 64 otherwise (and for the tiled Y0L2), under every stride flag |
| `StrideLaws.StrideFlagIsHonoured` | src/core/buffer_allocation.cpp:721-808 | every plane of every format gets the multiple, or the odd multiple of 256, that a stride flag asks for; no later rounding undoes it |
| `StrideLaws.StrideIsLeast` | src/core/buffer_allocation.cpp:664-719 | without a stride flag no smaller multiple of what the hardware, the CPU and NV30 ask for holds the row: 128 for YUV and 64 otherwise with hardware usage, nothing for a video format with its own stride |
| `StrideLaws.LinearPlaneIsLeast` | src/core/buffer_allocation.cpp:413-500 | uncompressed planes are no larger than their sample sites, but for the CPU's alignment across and pairs of rows in Y0L2 |
| `StrideLaws.PixelStrideIsExact` | src/core/buffer_allocation.cpp:815-826 | without stride flags, for untiled formats whose CPU alignment is neither dropped nor cut, pixel stride times depth is exactly eight times the byte stride, and the pixel stride is a multiple of the CPU width alignment |
| `CpuStrides.PixelStrideExactlyWhen` | src/core/buffer_allocation.cpp:815-826 | for every uncompressed format under every stride flag, the assertion that a stride is a whole number of pixels holds if and only if the depth has no factor of three or five or the row takes a multiple of that many grains of the last rounding; the pixel stride is then a multiple of the CPU width alignment |
| `DerivedBuffers.Rgb888FlagPixels` | src/core/buffer_allocation.cpp:824 | RGB_888 for the CPU with the 16-byte stride flag, one pixel wide, is derived and fails that assertion |
| `DerivedBuffers.Bgr888TexturePixels` | src/core/buffer_allocation.cpp:824 | BGR_888 for CPU and GPU, one pixel wide, is derived and fails it without any flag |
| `StrideLaws.Bgr888PixelStride` | src/core/buffer_allocation.cpp:700-711 | for BGR_888, whose CPU alignment is dropped, the pixel stride is exact if and only if the number of units in a row is a multiple of three, the unit being what hardware usage and the stride flag round to (for odd multiples of 256: the multiple itself is one of three) |
| `StrideLaws.Yv12ChromaLaw` | src/core/buffer_allocation.cpp:537-568 | with CPU usage the chroma stride is ALIGN(luma stride / 2, 16) for every width, with or without hardware usage, if and only if no stride flag is in the way (odd multiples of 256; 64 and 128 without hardware usage where half of luma is no multiple); it always covers the aligned chroma width, and with both usages the assertions of update_yv12_stride hold under every flag |
| `DerivedBuffers.Yv12FlagChroma` | src/core/buffer_allocation.cpp:760-798 | YV12 for the CPU with the flag for odd multiples of 256 is derived, and the chroma law fails for every width |
| `Layout.UpdateYv12Stride` | src/core/buffer_allocation.cpp:546-568 | luma becomes the least multiple of twice the alignment that is not below it; when luma is such a multiple, half of it is exact and a multiple of the alignment, and of 16 when the alignment is, which are the source's assertions |
| `AfbcLayout.PlanesAreWholeSuperblocks` | src/core/buffer_allocation.cpp:442-487 | without CPU usage every plane is a whole number of superblocks and of header tiles |
| `AfbcLayout.PaddingIsHonoured` | src/core/buffer_allocation.cpp:448-487 | without CPU usage padded RGB planes have a multiple of four superblocks across, and untiled wide blocks cover whole 16-row strips |
| `AfbcLayout.SuperblockCountIsExact` | src/core/buffer_allocation.cpp:831-832 | without CPU usage width times height over 256 is the exact number of superblocks, columns times rows |
| `AfbcLayout.AfbcRowsAreWholeBytes` | src/core/buffer_allocation.cpp:643-647 | without CPU usage the byte stride of a compressed plane is exact |
| `AfbcLayout.HeadersAndBodiesAreAligned` | src/core/buffer_allocation.cpp:837-914 | every header and every body starts on 1024 bytes, or 4096 with tiled headers, also behind doubled bodies |
| `AfbcLayout.BodyHoldsEverySuperblock` | src/core/buffer_allocation.cpp:837-858 | the body region holds a slot for every superblock of the plane |
| `CompressedSizes.SlotIsLeast` | src/core/buffer_allocation.cpp:841-842 | the slot of a superblock is the least multiple of 128 bytes that holds its 256 pixels, whatever its shape |
| `CompressedSizes.BodyHoldsItsSuperblocks` | src/core/buffer_allocation.cpp:837-850 | a body holds every pixel of its superblocks, and wastes less than 128 bytes a superblock and less than a grain of padding |
| `CompressedSizes.BodyHoldsEveryPixel` | src/core/buffer_allocation.cpp:837-850 | without CPU usage width times height times the compressed depth of a plane never exceeds eight times its body |
| `CompressedSizes.HeaderIsLeast` | src/core/buffer_allocation.cpp:885-897 | a header is the least multiple of 1024 bytes, or 4096 with tiled headers, with sixteen bytes for every superblock |
| `CompressedSizes.PlaneIsLeast` | src/core/buffer_allocation.cpp:444-487 | without CPU usage an AFBC plane is the least size that covers its sample sites in whole header tiles, which are eight superblocks to a side exactly where 64 superblocks of pixels fit in 64 KiB and four elsewhere; padded RGB has at least four across, untiled wide blocks come in pairs downwards |
| `AfbcLayout.SecondBodyIsAlignedAndFits` | src/core/buffer_allocation.cpp:852-857 | the second body of a front-buffer-safe allocation is aligned, behind the first, and ends with the plane |
| `CompressedSizes.AfbcIsAsAsked` | src/core/buffer_allocation.cpp:203-273 | a derived AFBC layout has tiled headers, a second body, wide or extra-wide superblocks exactly if the modifier bits ask for them, and padding exactly if the usage bit does |
| `AfbcLayout.CountIsRightExactlyWhen` | src/core/buffer_allocation.cpp:831-832 | for every AFBC allocation, with or without CPU usage, width times height over 256 never exceeds the number of superblocks covering the plane, and equals it if and only if there is no CPU usage, the picture is empty, or the width aligned for the CPU and the height happen to be whole superblocks |
| `DerivedBuffers.CpuUsageBreaksTheCount` | src/core/buffer_allocation.cpp:440-443 | RGBA_8888 forced to AFBC with CPU usage is derived on RK3588, and its count is right only for an empty picture or one that is a multiple of 16 both ways: 17 x 17 counts one superblock instead of four |
| `AfbcHeaders.InitAfbc` | src/core/buffer_allocation.cpp:342-390 | one call writes the layout's entry once per superblock and changes no other byte |
| `AfbcHeaders.EntriesStayInHeader` | src/core/buffer_allocation.cpp:342-390 | the entries of a plane lie inside the header region calc_allocation_size reserved for it |
| `AfbcHeaders.InitHeaders` | src/core/buffer_allocation.cpp:1164-1174 | the plane loop, driven by the plane table alone, gives every superblock of every plane of the first layer its entry and leaves every other byte alone, which determines the whole memory |
| `AfbcHeaders.EntryNamesBody` | src/core/buffer_allocation.cpp:342-364 | read back from memory, the first word of an entry is the header size the layout engine computed, marked for subsampled layouts and zero for the other tiled ones, and the other three are the layout's superblock descriptor |
| `LayerHeaders.LaterBytesUntouched` | src/core/buffer_allocation.cpp:1164-1174 | no byte from the second layer on is changed |
| `LayerHeaders.LaterLayersAsBefore` | src/core/buffer_allocation.cpp:1164-1174 | a later layer holds its header entries after the call if and only if it held them before |
| `LayerHeaders.HeadersInitialisedExactlyWhen` | src/core/buffer_allocation.cpp:1164-1174 | the headers of every layer are initialised whatever the memory held before, if and only if there is one layer or no plane has a superblock |
| `LayerHeaders.ZeroedLayerExactlyWhen` | src/core/buffer_allocation.cpp:350-369 | in zeroed memory a later layer comes out right if and only if there is nothing to write or its entries are all zero: tiled headers, not subsampled within one plane |
| `LayerHeaders.SecondLayerStaysBlank` | src/core/buffer_allocation.cpp:1103-1174 | a derived two-layer RGBA texture, of any size, whose second layer is left without headers |
| `TiledLayout.AfrcIsExact` | src/core/buffer_allocation.cpp:625-642 | AFRC without CPU usage: the divisibility assertion holds, stride times height is exactly the coding-unit body, and every plane meets its alignment |
| `CompressedSizes.UnitsHold64Samples` | src/core/buffer_allocation.cpp:274-334 | in every derived AFRC layout a coding unit stands for 64 samples, three components taking the room of four, is four rows high unless a single component is rotated, and has the bytes the format asks for: luma's in the first plane, chroma's in the others |
| `CompressedSizes.BodyIsItsSamples` | src/core/buffer_allocation.cpp:859-871 | without CPU usage 64 times the AFRC body of a plane is its pixels times the samples and bytes of a coding unit |
| `CpuTiles.AfrcCoversExactlyWhen` | src/core/buffer_allocation.cpp:859-871 | with or without CPU usage, the coding units of a plane cover the picture if and only if the plane is a whole number of them both ways, as it always is without CPU usage |
| `DerivedBuffers.CpuAfrcIsCut` | src/core/buffer_allocation.cpp:440-443 | RGBA_8888 forced to AFRC with CPU usage is derived, and its coding units cover the picture only if both sizes are multiples of four |
| `TiledLayout.BlockLinearIsExact` | src/core/buffer_allocation.cpp:648-663 | block-linear without CPU usage: nothing is truncated, each row of blocks covers a row of the subsampled picture, and the body's rows cover its height |
| `CpuTiles.BlockLinearCoversExactlyWhen` | src/core/buffer_allocation.cpp:872-883 | with or without CPU usage, the blocks cover the picture in every plane if and only if there is no CPU usage or the picture, rounded as the format asks, is a whole number of blocks both ways |
| `DerivedBuffers.CpuBlockLinearIsCut` | src/core/buffer_allocation.cpp:440-443 | NV12 forced to block-linear with CPU usage is derived, and its blocks cover the picture only if both sizes, rounded to even, are multiples of 16 |
| `TiledLayout.BlockLinearAssertionsHold` | src/core/buffer_allocation.cpp:648-662 | without CPU usage rows are whole bytes, and there is a block across exactly when the width is not zero |
| `Derive.AdjustDimensions` | src/core/formats.cpp:182-272 | the in-place adjustment yields the specified dimensions |
| `Derive.AdjustmentCovers` | src/core/formats.cpp:182-272 | adjusted dimensions cover the requested ones and meet the height flag, the doubling of depth formats, and the GPU's 16-pixel grid for AFBC |
| `Derive.AdjustmentIsLeast` | src/core/formats.cpp:182-272 | the adjusted size is the least that meets what was asked for: 8, 16 or, with both flags, 64 rows; twice the rows for exactly the formats that are neither RGB nor YUV nor aligned in pixels nor BLOB; 16 by 16 for AFBC the GPU writes |
| `Derive.BufferDescriptor.AdjustRkVideoSize` | src/core/buffer_allocation.cpp:136-182 | the size grows to what the video decoder needs and never shrinks |
| `VideoGrowth.LayerHoldsVideo` | src/core/buffer_allocation.cpp:137-182 | with a stride usage a layer is the larger of its planes and two bytes for every byte of NV12's first plane, two and a half for NV16, two for NV15 and three for NV24; for every other format, and without a stride usage, it is just its planes |
| `VideoGrowth.VideoBuffersGrow` | src/core/buffer_allocation.cpp:137-182 | an uncompressed video buffer with a stride usage against the buffer it would have been: NV12 grows to exactly four thirds, NV16 to five quarters, NV15 to two luma planes; NV24 keeps its size unless a flag rounds its chroma rows to less than twice the luma rows |
| `Derive.BufferDescriptor.DeriveFormatAndSize` | src/core/buffer_allocation.cpp:1005-1120 | on success the descriptor holds the layout of the adjusted request, enlarged and layered; on an error nothing but the chosen format is recorded |
| `Derive.DivisionByZeroExactlyWhen` | src/core/buffer_allocation.cpp:1054-1091 | the enlargement divides by zero if and only if the format is one of the two AFBC-only interleaved ones and a stride usage is set |
| `RkSelection.InterleavedStrideDividesByZero` | src/core/buffer_allocation.cpp:1054-1091 | an interleaved 8-bit video texture with a specified stride on RK3588 gets there |
| `Derive.DerivedIsSane` | src/core/buffer_allocation.cpp:986-1050 | every derived request is an accepted type on a well-formed row |
| `LayoutGrowth.LargerPictureLargerBuffer` | src/core/buffer_allocation.cpp:986-1121 | for one format, usage and layer count a request at least as wide and high (BLOB: as wide, at height one) is also derived and gets at least as large a buffer, through every rounding |
| `LayoutGrowth.EndGrows` | src/core/buffer_allocation.cpp:609-915 | every plane's start and end are monotone in the picture size |
| `LayoutBounds.NothingOverflows` | src/core/buffer_allocation.cpp:595-917 | up to 8192 x 8192 and one layer every value fits its C type: dimensions, units, the products of rows, units, lcm, paging tiles and blocks, the sums inside every rounding, strides, headers, bodies, ends, and the size after the enlargement |
| `LayoutBounds.PlaneFits` | src/core/buffer_allocation.cpp:609-915 | the same plane by plane, for the layout engine alone |
| `Layers.LayersPartitionTheBuffer` | src/core/buffer_allocation.cpp:1103-1117 | the size is the layer count times an equal step; layers are disjoint and every plane of every layer lies in its own step |
| `Layers.StepIsLeast` | src/core/buffer_allocation.cpp:1100-1119 | layers are no further apart than alignment asks: less than 4096 bytes more than a layer for tiled headers, less than 128 for other AFBC, nothing otherwise |
| `Layers.LayerHeadersAreAligned` | src/core/buffer_allocation.cpp:1095-1115 | every AFBC header of every layer starts on 128 bytes, or 4096 with tiled headers |
| `Layers.NumPlanesRecovered` | src/idl_common/mapper/mapper_metadata.cpp:49-52 | get_num_planes returns the format's plane count for a fresh allocation of a non-empty picture if and only if there are fewer than three planes or the first two hold any byte, as they always do except in compressed layouts with CPU usage |
| `Layers.GetPlaneSizes` | src/idl_common/mapper/mapper_metadata.cpp:270-283 | the loop reports the next offset, or the rest of the layer for the last plane |
| `Layers.ReportedSizesOfFreshLayout` | src/idl_common/mapper/mapper_metadata.cpp:270-283 | for a non-empty picture, uncompressed or without CPU usage: reported sizes contain their planes; they sum to the layer if and only if there are at most two planes, and exceed it by the second plane's offset with three |
| `Access.RegionAcceptedExactlyWhenInside` | src/core/buffer_access.cpp:128-199 | with 32-bit wrap-around, the checks accept exactly the regions inside the buffer of an imported handle |
| `Access.FlexLayout.LockFlex` | src/core/buffer_access.cpp:509-805 | the status of every path, and on success the flex format, the plane count and the flex planes of the format's channels; on an error the format and the planes are as before |
| `Access.FlexLayout.Fill` | src/core/buffer_access.cpp:540-799 | the switch fills the planes of exactly the handled formats, and the FLEX_FORMAT it announces lists their components in order |
| `Access.FlexFormatsAreFlex` | src/core/buffer_access.cpp:539-799 | the component count agrees with the switch, and of the flex formats only BGR_888 and NV24 are not handled |
| `MemoryOrder.FlexFollowsOrder` | src/core/buffer_access.cpp:540-799 | in every format a flex lock handles, each channel starts behind the slots that come before its component in the format's memory order, is one slot wide, and steps over one pixel, or one of the two luma samples of a packed pair |
| `MemoryOrder.YcbcrFollowsOrder` | src/core/buffer_access.cpp:322-370 | so do the channels of an android_ycbcr, except that Y16 luma is read by single bytes |
| `MemoryOrder.UsedBitsAreTheDepth` | src/core/buffer_access.cpp:540-799 | ten bits of a slot carry data in the ten-bit formats of the table, and all bits elsewhere |
| `MemoryOrder.OrderFillsDepth` | src/core/format_info.cpp:34-381 | the slots of the memory order fill exactly the depth the format table has for each plane |
| `MemoryOrder.ExchangedFormats` | src/core/buffer_access.cpp:556-592 | RGBA_8888 with red and blue exchanged is BGRA_8888, and NV12 with Cb and Cr exchanged is NV21 |
| `Access.LockYcbcr` | src/core/buffer_access.cpp:286-388 | the status of every path, a missing output structure included, and on success the pointers and strides of the format's channels |
| `Access.YcbcrMatchesChannels` | src/core/buffer_access.cpp:322-370 | the single chroma stride and step of android_ycbcr are right for both chroma components |
| `SampleSafety.FlexTableIsConsistent` | src/core/buffer_access.cpp:540-799 | offsets, steps and subsampling of every handled format agree with the format table |
| `SampleSafety.SampleInside` | src/core/buffer_access.cpp:322-370 | every sample a lock hands out lies in its own memory plane, also where YU12 swaps the chroma strides |
| `SampleSafety.LocksAgree` | src/core/buffer_access.cpp:322-370 | lock_ycbcr and lock_flex put every Y, Cb and Cr sample of the formats they share at the same byte |
| `SampleSafety.DistinctSamplesAreDisjoint` | src/core/buffer_access.cpp:539-795 | distinct (component, x, y) samples share no byte, in every handled format |
| `SampleSafety.AcceptedRegionsAreSafe` | src/core/buffer_access.cpp:128-199 | from derivation to access: for a buffer without modifiers every accepted region stays inside the allocation through every pointer handed out, if and only if the buffer is not NV12 with two stride flags |
| `Ips.CpuTakesPart` | src/core/formats.cpp:50-164 | the CPU is a producer or consumer exactly when the usage has a software flag |
| `Ips.ConsumersAre` | src/core/formats.cpp:50-112 | which usage makes each IP a reader of the buffer, one IP at a time; a usage of the composer alone is read by the display and by nobody else |
| `Ips.ProducersAre` | src/core/formats.cpp:114-176 | which usage makes each IP a writer; a usage of the composer alone is written by the display's output unit |
| `Capabilities.IpSupportFeature` | src/capabilities/capabilities.cpp:41-91 | the early-return loop computes the conjunction over all IPs with capability files, and aborts exactly when the GPU has none and the CPU has not settled the question |
| `Capabilities.SupportOfUnion` | src/capabilities/capabilities.cpp:41-91 | support is a homomorphism: unions of IPs support exactly what both parts support |
| `Capabilities.OneIpSupports` | src/capabilities/capabilities.cpp:41-90 | what one IP supports by itself: the CPU two deep-colour formats, each of the five others what its file says, or everything without a file |
| `Capabilities.SupportShrinks` | src/capabilities/capabilities.cpp:41-91 | adding IPs never makes more supported |
| `Capabilities.IsPresent` | src/capabilities/capabilities.h:217-231 | the shifting loop stops, also when the shift wraps to zero, and has looked at every bit; it aborts exactly when the GPU has no file and some IP other than the CPU is asked about |
| `InternalFormats.LumaSizeField` | src/core/internal_format.h:285-296 | an AFRC size reads back from its field and leaves the other field alone |
| `InternalFormats.ChromaSizeField` | src/core/internal_format.h:298-312 | the same for the chroma field |
| `ModifierFlags.SetFlag` | src/core/internal_format.h:330-345 | setting a modifier changes that flag and no other bit |
| `ModifierFlags.FlagsAreFaithful` | src/core/internal_format.h:330-345 | base and flags determine the format |
| `AfbcSelection.ValidateAfbcFormat` | src/core/formats.cpp:521-608 | the sequence of repairs leaves exactly the flags of the closed form |
| `AfbcSelection.GetAfbcFormat` | src/core/formats.cpp:697-789 | the built format is the validated set of desired flags, or the bare base format |
| `AfbcSelection.AfbcFormatsAreLegal` | src/core/formats.cpp:697-789 | for arbitrary capabilities: the bare format exactly when AFBC is refused, otherwise an AFBC format meeting all rules of double bodies, wide and split blocks, supported features and sparse bodies at once |
| `AfbcSelection.BuiltFlagsAre` | src/core/formats.cpp:521-788 | AFBC is built if and only if every party handles it, the decoder does not feed the encoder and YUV is handled on both sides; and, once built and validated, exactly when each flag is set in terms of the parties, the format and the usage alone |
| `AfbcSelection.ValidationSettlesExactlyWhen` | src/core/formats.cpp:521-608 | validation is idempotent, and establishes the split rule, if and only if the flags are not stuck (wide and split where split blocks are missing) |
| `AfbcSelection.BuiltFormatsStayValid` | src/core/formats.cpp:788 | what get_afbc_format builds is a fixed point of validation |
| `Selection.IpSupportsBaseFormat` | src/core/formats.cpp:285-335 | the intersection of the columns holds exactly the kinds every IP handles |
| `Selection.TableOfUnion` | src/core/formats.cpp:285-335 | table support is a homomorphism over unions of IPs |
| `Selection.IsFormatSupported` | src/core/formats.cpp:426-508 | clearing flags step by step leaves exactly the kinds that pass tables, usage and capabilities |
| `Selection.MoreIpsSupportLess` | src/core/formats.cpp:426-508 | under the given tables adding producers or consumers never adds a kind of layout |
| `Selection.CpuIsServed` | src/core/formats.cpp:426-508 | the CPU alone gets exactly the formats with an uncompressed layout but NV15 and NV30, uncompressed, whatever the capability files say |
| `Selection.GetAfrcFormat` | src/core/formats.cpp:621-681 | an AFRC format is built exactly when a layout is supported, a luma size is given, and a chroma size is given exactly for YUV |
| `Selection.AfrcReadsBack` | src/core/formats.cpp:621-681 | it reads back as the layout and sizes it was built from, in the AFRC class only |
| `BestFormat.GetSupportedFormat` | src/core/formats.cpp:822-910 | AFRC, AFBC, block-linear and linear are tried in this order, with the retry without the DPU |
| `BestFormat.GradeFormat` | src/core/formats.cpp:1004-1052 | the loop adds the weights of the set modifiers, or grades zero |
| `BestFormat.GetBestFormat` | src/core/formats.cpp:1072-1146 | the single pass is an argmax: without the CPU the requested format if it has the top grade, else the first row in table order that has it; with the CPU only the requested format |
| `SelectFormat.BestRankWins` | src/core/formats.cpp:1072-1146 | without the CPU the result is AFRC if any candidate is, otherwise AFBC, otherwise block-linear, otherwise linear |
| `SelectionLaws.BestKindOfRow` | src/core/formats.cpp:822-910 | of one row the best possible kind of layout is taken, and something is taken whenever anything is possible |
| `SelectionLaws.NothingBetterIsPossible` | src/core/formats.cpp:1072-1146 | without the CPU no compatible row of the table can be laid out in a better way than the chosen one, an RGB row of another depth counting for AFRC only |
| `SelectionLaws.ChoiceKeepsThePicture` | src/core/formats.cpp:912-1002 | the chosen format has the subsampling and colour model of the request; RGB keeps its components, its depth unless it becomes AFRC, and its bits per sample unless RGBX_8888 or RGB_565 becomes 24-bit; YUV keeps its sample depth and loses at most an alpha component; anything else is what was asked for |
| `SelectionLaws.ChoiceHonoursTheUsage` | src/core/formats.cpp:426-508 | GPU data buffers are uncompressed, a usage without AFBC never gets AFBC, and the two deep-colour formats are only chosen where everybody but possibly the display unit takes them, half-float ones compressed only where that is taken too |
| `SelectionLaws.ClosestAfrcIsChosen` | src/core/formats.cpp:1004-1146 | without the CPU the chosen AFRC format is the requested one or holds the same samples in another order, if any AFRC candidate does |
| `SelectionLaws.AskedSizesReachLayout` | src/core/formats.cpp:621-681 | an AFRC format is built exactly when a layout is supported and the usage word asks for a luma size, and for a chroma size exactly for YUV; the coding units of every plane are then laid out with the 16, 24 or 32 bytes asked for |
| `SelectionLaws.RequestPassesExactlyWhen` | src/core/formats.cpp:1234-1310 | a request gets as far as the choice if and only if the format has a row, the usage is within what it permits but for vendor flags, some usage bit makes an IP read or write the buffer, YUV is not asked for without AFBC, and the allocator knows R8, front buffers and GPU data where those are asked for |
| `SelectionLaws.UnwrittenIsUncompressed` | src/core/formats.cpp:1262-1275 | a buffer nobody is known to write gets the requested format, uncompressed |
| `SelectionLaws.DisplayIsOptional` | src/core/formats.cpp:840-862 | where the GPU reads a buffer too, a table row has a kind of layout exactly if it has one without the display unit; elsewhere the display unit has its say |
| `SelectionLaws.FrontBuffersAreDoubled` | src/core/formats.cpp:697-788 | AFBC for a front buffer has a second body exactly if it has tiled headers |
| `SelectFormat.GradesFollowRanks` | src/core/formats.cpp:1004-1052 | the grades of the four kinds of format do not overlap |
| `SelectFormat.SelectBestFormat` | src/core/formats.cpp:1234-1324 | every error path returns the invalid format; otherwise the best format for the parties of the usage, the CPU standing in for a missing producer |
| `SelectFormat.PermittedMeansSubset` | src/core/formats.cpp:1247-1260 | the usage check accepts exactly usages within the permitted ones, vendor flags aside |
| `SelectFormat.SelectedFormatsAreAllocatable` | src/core/formats.cpp:822-910 | a selected format is accepted by get_alloc_type and validate_format, except BLOB with a height other than one; with CPU usage it is the requested base format, uncompressed; AFBC implies no CPU usage |
| `SelectFormat.SelectedLayoutIsAligned` | src/core/buffer_allocation.cpp:436-495 | the layout request of a selected format is linear, or compressed without CPU usage, so the compressed alignment branch is taken |
| `SelectFormat.UnlistedFormatsAreRefused` | src/core/formats.cpp:1247-1270 | BGR_888, NV24 and NV30, whose rows permit no usage, are never selected |
| `RkSelection.RkSelectFormat` | src/core/formats.cpp:1486-1706 | the branches over usage, platform and properties yield the specified format, also for words without a known format, which keep their high bits as modifiers; and the framebuffer size is read or saved once |
| `RkOutcomes.ClientBuffers` | src/core/formats.cpp:1641-1697 | what every mapped request for hardware alone comes out as on RK356X and RK3588, format by format: nine formats uncompressed, thirteen as 16x16 AFBC, RGBA_8888 by its size against a quarter of the framebuffer, all others refused |
| `RkOutcomes.UncompressedBuffers` | src/core/formats.cpp:1486-1706 | every mapped request that the CPU, the encoder or a camera takes part in, or for which AFBC is switched off, comes out uncompressed in the stated format, or is refused for the five formats without such a layout and for BLOB of another height |
| `RkOutcomes.FramebufferTargets` | src/core/formats.cpp:1584-1640 | every framebuffer target for hardware alone comes out as RGBA_8888 AFBC, with the colour transform exactly on RK3326, but for NV12, NV16, P010 and RGBA_16161616, which stay uncompressed |
| `RkSelection.AfbcMeansNoCpu` | src/core/formats.cpp:1486-1706 | AFBC is selected exactly in the stated cases or where the requested word asks for it; the selector's own choice, and so every AFBC format of a request without modifier bits, implies no CPU usage |
| `RkSelection.ForcedAfrcBecomesAfbc` | src/core/formats.cpp:1668-1705 | a forced format is kept unless AFBC is chosen; then a forced AFRC format gets the AFBC bit on top and is laid out as AFBC |
| `DerivedBuffers.ForcedAfrcTexture` | src/core/formats.cpp:1668-1705 | RGBA_8888 forced to AFRC as a texture on RK3588 carries both bits, is derived, and is laid out as AFBC |
| `RkSelection.RkAfbcIsAligned` | src/core/buffer_allocation.cpp:436-487 | a derived Rockchip buffer is AFBC exactly where AFBC was chosen or asked for; it takes the compressed alignment branch if and only if the usage has no CPU, always so where AFBC was chosen, and only a word that asks for AFBC itself gets there with CPU usage |
| `RkSelection.RkFormatAllocatableExactlyWhen` | src/core/buffer_allocation.cpp:923-982 | for requests with a mapped format, and for any compressed framebuffer target, the selected format is accepted if and only if the table has the chosen kind: single-plane AFBC where AFBC is chosen, linear otherwise; and BLOB has height one |
| `RkSelection.UnmappedAllocatableExactlyWhen` | src/core/buffer_allocation.cpp:923-982 | for all other requests, which force their modifiers, it is accepted if and only if the table has the layout they ask for and their flags go together, AFBC taking precedence where it is chosen or forced; and BLOB has height one |
| `RkSelection.Nv21TextureIsRefused` | src/core/formats.cpp:1668-1697 | NV21 for GPU sampling on RK3588 gets AFBC and is refused |
| `RkSelection.FbTargetIsAllocatable` | src/core/formats.cpp:1594-1640 | a compressed framebuffer target is always accepted |
| `RkSelection.SameChoiceEverywhere` | src/core/formats.cpp:1452-1484 | after the first framebuffer target every process makes the same choice for the same request at any later time |
| `FbSize.Process.GetFbSize` | src/core/formats.cpp:1419-1432 | the cached size, else the property, which is then cached |
| `FbSize.Process.SaveFbSize` | src/core/formats.cpp:1404-1417 | saves only when nothing has been seen before |
| `FbSize.FirstSaveWins` | src/core/formats.cpp:1404-1432 | in every multi-process run each non-zero cached size is the property, and the first non-zero save is never overwritten |
| `FbSize.EveryoneSeesTheSame` | src/core/formats.cpp:1404-1432 | after it every process sees that size, however the run goes on |
| `DrmModifier.DrmModifierFromHandle` | src/core/drm_utils.cpp:247-263 | dispatch to the tags of the format's class |
| `DrmModifier.AfbcModifierTags` | src/core/drm_utils.cpp:173-245 | the accumulated AFBC tags |
| `DrmModifier.AfrcModifierTags` | src/core/drm_utils.cpp:103-171 | the accumulated AFRC tags, or zero outside the fourcc table |
| `DrmModifier.AcceptedBlockSizes` | src/core/buffer_allocation.cpp:224-267 | get_alloc_type and validate_format leave only flag combinations whose block-size code is unambiguous |
| `DrmModifier.HandleModifierLosesNothing` | src/core/drm_utils.cpp:103-263 | from request to handle: for a picture with a width, a decoder recovers from the modifier of a fresh handle the class, if and only if the format is not AFRC Y8, every AFBC flag with both block-size bits, and the AFRC layout and the coding sizes that apply |
| `DrmModifier.ModifierNamesSuperblocks` | src/core/drm_utils.cpp:173-245 | from request to handle: for a picture with a width the block-size code of a derived AFBC buffer stands for exactly the superblock width and height each plane is laid out in, and the solid-colour bit is set exactly for tiled RGB headers of at most 64 bits |
| `DrmModifier.MultiPlaneExactlyWhen` | src/core/buffer.h:205-209 | is_multi_plane says whether the format has several planes, exactly unless the width is zero |
| `DrmModifier.ModifierLosesNothing` | src/core/drm_utils.cpp:103-263 | the same for a handle that reports the planes of its format, of whatever size |
| `DrmModifier.Y8LosesItsClass` | src/core/drm_utils.cpp:113-118 | AFRC Y8 gets the modifier of a linear buffer |
| `DrmModifier.ForcedY8IsAllocated` | src/core/drm_utils.cpp:113-118 | no IP is listed with AFRC for Y8, but a request that forces it is allocated as AFRC, whatever its size |
| `DescriptorCodec.EncodeDescriptor` | src/idl_common/gralloc_shared/include/idl_common/descriptor.h:140-160 | the vector holds the encoding and the cursor ends exactly at the fixed size |
| `DescriptorCodec.EncodedSections` | src/idl_common/gralloc_shared/include/idl_common/descriptor.h:140-160 | which bytes of the encoding hold which field: width, height, layer count and format from 0 by fours, usage at 16, reserved size at 24, the name from 32 |
| `DescriptorCodec.DecodeDescriptor` | src/idl_common/gralloc_shared/include/idl_common/descriptor.h:162-190 | any other length is rejected; otherwise all fields are read at their places |
| `DescriptorCodec.ByteVector.PushName` | src/idl_common/gralloc_shared/include/idl_common/descriptor.h:122-127 | strncpy semantics: the name up to its first NUL or 127 bytes, zeros after it |
| `DescriptorCodec.DecodeOfEncode` | src/idl_common/gralloc_shared/include/idl_common/descriptor.h:140-190 | decoding an encoded request returns every integer, the format as its 32-bit pattern, and the name cut at its first NUL or at 127 bytes |
| `DescriptorCodec.EncodingIsInjective` | src/idl_common/gralloc_shared/include/idl_common/descriptor.h:140-160 | equal encodings come from equal requests with equal cut names |
| `BufferLife.RunKeepsValid` | src/idl_common/mapper/mapper.cpp:119-322 | in every run each descriptor and mapping the process holds belongs to exactly one registered handle, none has leaked and none was released twice; locked means mapped, writing means locked |
| `BufferLife.FailedImportLeavesNothing` | src/core/buffer.h:324-366 | a failed clone or mapping leaves the process with exactly what it had before |
| `BufferLife.FreeReleasesOnce` | src/idl_common/mapper/mapper.cpp:249-270 | freeing releases exactly the handle's descriptors and mappings, each once |
| `BufferRuns.LockCountIsBalance` | src/core/buffer_access.cpp:82-113 | in every run the lock count is accepted CPU locks minus accepted unlocks plus failed cache flushes |
| `BufferRuns.CallsAcceptedExactlyWhen` | src/idl_common/mapper/mapper.cpp:119-270 | a lock is accepted if and only if the handle is live, the fence signals, the region lies inside the buffer, the format is known, nobody writes already (BLOB aside) if it is for writing, and the buffer is or can be mapped if the CPU is to touch it; an unlock needs a lock, a free a live handle; what is refused leaves every handle as it was |
| `BufferRuns.LocksMinusUnlocks` | src/core/buffer_access.cpp:82-113 | with every flush succeeding it is exactly locks minus unlocks |
| `BufferRuns.FreedHandleIsRefused` | src/idl_common/mapper/registered_handle_pool.cpp:27-41 | a freed handle is refused by lock, unlock and free ever after |
| `BufferRuns.MappedOnce` | src/core/buffer_access.cpp:819-831 | a buffer keeps its first mapping as long as its handle lives |
| `BufferRuns.LockedMeansMapped` | src/core/buffer_access.cpp:225-260 | after every run from the start a locked buffer is mapped and a writer holds a lock |
| `BufferRuns.NothingHeldAtTheEnd` | src/idl_common/mapper/mapper.cpp:249-270 | when every handle has been freed the process holds no descriptor and no mapping |
| `BufferRuns.OneWriterAtATime` | src/idl_common/mapper/mapper.cpp:129-135 | except for BLOB, with no read-only lock over a write lock, at most one write lock is out, and the write flag says whether there is one |
| `BufferRuns.ReadOverWriteAdmitsSecondWriter` | src/core/buffer_access.cpp:84-88 | a read-only lock over a write lock clears the flag, and a second write lock is accepted |
| `Mapper.ImportedHandle.BufferSync` | src/core/buffer_access.cpp:82-113 | lock and unlock bookkeeping, with the early return of a failed flush |
| `Mapper.Process.MakeImportedHandle` | src/core/buffer.h:324-366 | descriptors are cloned one by one and closed again when one fails |
| `Mapper.Process.ImportBuffer` | src/idl_common/mapper/mapper.cpp:196-247 | import is the protocol's step, all or nothing |
| `Mapper.Process.LockHandle` | src/idl_common/mapper/mapper.cpp:119-157 | lockBuffer: what a lock does to one handle and the kernel, with every refusal |
| `Mapper.Process.LockBuffer` | src/idl_common/mapper/mapper.cpp:272-295 | lock is the protocol's step |
| `Mapper.Process.UnlockBuffer` | src/idl_common/mapper/mapper.cpp:169-194 | unlock is the protocol's step |
| `Mapper.Process.FreeBuffer` | src/idl_common/mapper/mapper.cpp:249-270 | free is the protocol's step, including the descriptor closed by hand and the destructor |
| `Mapper.Process.MapBuffer` | src/core/buffer_access.cpp:819-831 | mapping happens only when there is none |
| `Mapper.Process.Execute` | src/idl_common/mapper/mapper.cpp:196-322 | any sequence of calls is a run of the protocol |

## Left out

- dma-buf heaps, memfd, mmap, cache synchronisation, fences, binder and HIDL or AIDL glue, logging: foreign calls, present only as answers that succeed or fail.
- Capability XML files and Android properties as files: they are arbitrary values. AfbcSelection, Selection and BestFormat ask for capabilities as functions, without the abort of Capabilities.IpSupportFeature on a missing GPU file.
- Numbers of format identifiers and the kernel's vendor code for ARM modifiers: platform headers are not part of this model.
- The Arm selector on private formats: select_forced_format and check_modifiers_against_format.
- CPU usage on compressed formats: only a request that forces its modifiers gets there (RkSelection.RkAfbcIsAligned). Where it makes a difference the exact condition is proved (AfbcLayout.CountIsRightExactlyWhen, CpuTiles.AfrcCoversExactlyWhen, CpuTiles.BlockLinearCoversExactlyWhen), and TiledLayout is stated without it.
- Layers.ReportedSizesOfFreshLayout: for compressed formats without CPU usage; a small three-plane picture with it can have empty planes (Layers.NumPlanesRecovered says when they are not counted).
- The build switches that force BGRA_8888 or switch AFBC off for hardware-composer framebuffers: off in this configuration.
- Shared HDR metadata, dataspace, chroma siting, component description tables, dumps, validateBufferSize, flushLockedBuffer, rereadLockedBuffer: per-branch facts.
- The initial lock count: nothing in the import path sets it; a new handle is taken to start at zero.
- Interleavings inside one API call: each call is one step.
- A handle imported by one process and freed by another, and native_handle validation: the model has one process and well-formed handles.
- The return of an address to the heap: handle addresses are never reused, so adding a new handle to the pool cannot collide.
- Layout.CalcAllocationSize: works on unbounded integers; the C types are covered by LayoutBounds.NothingOverflows up to 8192 x 8192 and one layer.
- StrideLaws.StridesHonourAlignments: leaves stride flags, Y0L2, BGR_888, NV15 and NV30 to CpuStrides.CpuAlignmentExactlyWhen and StrideLaws.HardwareStridesAreAligned, which cover them.
- StrideLaws.PixelStrideIsExact: leaves the same requests to CpuStrides.PixelStrideExactlyWhen.
- TiledLayout.BlockLinearIsExact: states coverage of the requested picture; the chroma plane's alloc_height is rounded to 16 separately and can exceed the rows its body covers.
- DrmModifier.HandleModifierLosesNothing: for pictures with a width; at width zero is_multi_plane hides the planes (DrmModifier.MultiPlaneExactlyWhen).
- Access.LockYcbcr: android_ycbcr has no luma step, so Y16 luma is read byte by byte in the channel description.
- Access.RegionAcceptedExactlyWhenInside: the sums of the checks are taken to wrap as two's complement; C++ leaves a signed overflow undefined.
