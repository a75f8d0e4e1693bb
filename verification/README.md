# Verification of the VISR signal-processing cores

This project models the numeric and stateful cores of the VISR rendering framework in Dafny and
proves what they compute. Samples, gains and coordinates are exact real numbers, complex numbers
are pairs of them, and indices and time stamps are unbounded integers, so the theorems are about
the algorithms and not about rounding.

Check everything with `dafny verify dfyconfig.toml`.

## What is proved

**Mixed-radix FFT** (`Complex`, `Sums`, `Arithmetic`, `Dft`, `Twiddles`, `ButterflySpec`, `Radix`,
`Butterflies`, `KissFft`, `FftFactor`, `KissPlan`, `RealDft`, `KissFftReal`). The recursion of
kiss_fft, with its five in-place butterflies and its factoriser, computes the discrete Fourier
transform for every length below 2^31. The transforms rest on five facts about a twiddle table
(`Dft.Table`): entry 0 is 1 and no other entry is, the quarter entry is -i or i, entries multiply by
adding indices, and all lie on the unit circle. The tables the allocation loops compute from phases
have them for every length and in both directions, by the addition theorems of cosine and sine,
Pythagoras' theorem, the values at zero and a quarter turn, and the cosine being one at whole turns
only (`Twiddles.IsTrig`). The hand-written radices meet the same specification as the generic pass.
The inverse-configured transform undoes the forward one up to the factor nfft (`KissPlan.RoundTrip`),
also for the real-valued front end that packs two real samples into one complex one
(`KissFftWrapper.RealRoundTrip`); both are also stated of the buffers, from the plans' allocation on
(`KissPlan.ThereAndBack`, `KissFftWrapper.RealThereAndBack`).

**Partitioned, crossfading convolution** (`Signals`, `FftContract`, `KissFftWrapper`, `CircularBuffer`,
`PartitionedFir`, `CoreConvolver`, `RoutingTable`, `CrossfadeModel`, `CrossfadingConvolver`). The mirrored circular
buffer always shows the last samples as one contiguous stretch. On top of it, the rotating
frequency-domain delay line and the partitioned filters compute direct FIR filtering, for every
block length, partition count and admissible impulse response, from a contract about the FFT that
the real-valued kiss_fft transforms are proved to meet. For every run of `process` calls and of calls
that set filters, as taps or as spectra, or change the routing table, the output equals the textbook
crossfade of the last two responses set. This is proved of the abstract state machine and of the
component called event by event, from its construction on (`CrossfadingConvolvers.ConstructAndPerform`).

**Panning-gain scheduler** (`PanningModel`, `PanningGainMatrix`, `PanningRuns`, `PanningOutputs`). A sample-by-sample
reference of one object's state machine, refined by the block-wise component, call by call and over
whole runs: all loop assertions hold, cutting time into blocks differently changes nothing, no gain
leaves the hull of the gains asked for, and messages sent while the earlier ones hold their gains
produce exactly the piecewise linear trajectory they describe. Both are carried over to the output
samples of the component.

**Lagrange weights** (`LagrangeTheory`, `Lagrange`). The divide-and-conquer pass replaces each entry
by the product of all others, and the resulting weights interpolate every polynomial of degree up
to the order exactly, in both coefficient orders; at a sample position they pick that sample.

**Panning gains** (`Geometry`, `Cap`, `Vbap`). CAP's closed form is the unique gain vector of least
energy with its two sums, and its limiter keeps the interaural cue. VBAP's search picks the first
enclosing triplet, or else the one with the largest least gain, and the gain-weighted loudspeaker
directions lead from the listener to the source. Directions and distances are tied to the positions
they stand for.

## Where the code and its documentation differ

The model follows the code.

- The filter scaling constant divides by the forward and the inverse scaling factor and the transform
  size once each, while two forward transforms are multiplied. Over any transform and for any number
  of partitions the convolvers are exact on all streams, responses and gains if and only if the
  forward scaling factor is 1 (`PartitionedFir.ExactIffUnitScale`). All three wrappers in the
  repository declare the factor 1 (src/librbbl/kiss_fft_wrapper.hpp:39, ffts_wrapper.hpp:48,
  ipp_fft_wrapper.hpp:39), so no shipped configuration is affected; the restriction is one on new
  implementations of the interface. Transforms with any other factor exist for every size
  (`KissFftWrapper.OtherScalesExist`).
- `setRoutingEntry` compares the filter index with the doubled number of entries that serves both
  banks. Indices from the number of filters up to twice that number are accepted but must not be
  used: `SetRoutingEntry` states when a table stays usable, and `ProcessOutputs` requires it.
- `getReadPointers` is documented to refuse delays that exceed the buffer length; it also refuses a
  delay equal to the length, which `getReadPointer` accepts.
- `initFilters` clears all filters before it refuses an initialiser that is too large.
- A gain transition that starts at once is meant to depart from the interpolated gains. It departs
  from the previous ones; `PanningModel.RestartGains` says exactly when that makes no difference, and
  `PanningGainMatrices.RestartJumps` is a run in which an applied gain falls from 0.5 to 0.1 at once.
- A transition that cuts a running one short is meant to reach the gains interpolated at its start
  time; the code takes those at the time of the message (`PanningModel.CutShortGains`). In the run of
  `PanningGainMatrices.CutShortMisses` it aims for 0.5 in place of 0.7.
- For VBAP triplets with a zero determinant the table holds the adjugate; their gains reproduce only
  the zero vector (`Vbap.TripletReconstructs`).

## Model

| member | source | states |
|---|---|---|
| `Dft.Decimate` | 3rd/kissfft/kiss_fft.c:238-302 | decimation in time: the butterfly sum over p transforms of every p-th sample is the transform of all samples |
| `Dft.Orthogonal` | 3rd/kissfft/kiss_fft.c:339-368 | a full row of twiddle powers adds up to nfft for exponents divisible by nfft and to zero otherwise |
| `Dft.Inversion` | 3rd/kissfft/kiss_fft.c:339-368 | summing the spectrum with conjugate twiddles gives nfft times the sample |
| `Dft.CircularConvolution` | src/librbbl/core_convolver_uniform.cpp:62-121 | the inverse transform of a product of spectra is nfft times the circular convolution |
| `Dft.QuarterTable` | 3rd/kissfft/kiss_fft.c:354-363 | the facts assumed of a twiddle table hold of the table of length 4 in both directions |
| `Twiddles.TwiddlesAreTable` | 3rd/kissfft/kiss_fft.c:354-363 | for every length and direction the factors computed from phases satisfy all facts assumed of a twiddle table |
| `Twiddles.InverseTwiddles` | 3rd/kissfft/kiss_fft.c:354-363 | the sign flip of the phase makes the inverse table the conjugate of the forward one |
| `Twiddles.FactorAt` | 3rd/kissfft/kiss_fft.c:354-363 | the power e of the root, reduced modulo the length, is the cosine and, with the sign of the direction, the sine of 2 pi e / n |
| `ButterflySpec.BflyColumn` | 3rd/kissfft/kiss_fft.c:198-235 | output u + q*m of a recombination is the sum over column u with powers of a p-th root of unity |
| `Radix.Rows2` | 3rd/kissfft/kiss_fft.c:21-42 | both outputs of the radix-2 kernel are the generic butterfly's sums |
| `Radix.Rows3` | 3rd/kissfft/kiss_fft.c:92-134 | all three outputs of the radix-3 kernel, with its halved sum and scaled difference, are the generic sums |
| `Radix.Rows4` | 3rd/kissfft/kiss_fft.c:44-90 | all four outputs of the radix-4 kernel are the generic sums, in either direction |
| `Radix.Rows5` | 3rd/kissfft/kiss_fft.c:136-195 | all five outputs of the radix-5 kernel are the generic sums |
| `Butterflies.Bfly2` | 3rd/kissfft/kiss_fft.c:21-42 | in place: every cell of the stretch becomes the generic recombination of the old cells, all others are kept |
| `Butterflies.Bfly3` | 3rd/kissfft/kiss_fft.c:92-134 | the same specification met by the radix-3 pass |
| `Butterflies.Bfly4` | 3rd/kissfft/kiss_fft.c:44-90 | the same specification met by the radix-4 pass for both directions |
| `Butterflies.Bfly5` | 3rd/kissfft/kiss_fft.c:136-195 | the same specification met by the radix-5 pass |
| `Butterflies.BflyGeneric` | 3rd/kissfft/kiss_fft.c:198-235 | the same specification met by the generic pass for every radix, with its scratch copy and running index |
| `Butterflies.TwidxStep` | 3rd/kissfft/kiss_fft.c:222-230 | one conditional subtraction keeps the running twiddle index equal to the product reduced modulo nfft |
| `Butterflies.TwIndex` | 3rd/kissfft/kiss_fft.c:44-195 | the unreduced twiddle indices of the specialised passes stay below nfft |
| `KissFft.Recombine` | 3rd/kissfft/kiss_fft.c:293-301 | p finished sub-transforms and one butterfly pass make the transform of length p * m |
| `KissFft.KfWork` | 3rd/kissfft/kiss_fft.c:238-302 | the recursion fills the output stretch with the transform of the strided input for every admissible factor list |
| `FftFactor.FactorListChain` | 3rd/kissfft/kiss_fft.c:299-330 | p1 * m1 = n, every further p * m is the previous m, and the last m is 1 |
| `FftFactor.RadicesArePrime` | 3rd/kissfft/kiss_fft.c:304-330 | every radix is 4, 2 or an odd prime |
| `FftFactor.RadixOrder` | 3rd/kissfft/kiss_fft.c:304-330 | fours come first, then at most one 2, then odd radices in ascending order |
| `FftFactor.FactorListLength` | 3rd/kissfft/kiss_fft.c:304-330 | a list of s stages needs n >= 2^s |
| `FftFactor.FactorListFits` | 3rd/kissfft/kiss_fft.c:304-330 | a 31-bit length has at most 30 stages, so the factor buffer never overflows |
| `FftFactor.KfFactor` | 3rd/kissfft/kiss_fft.c:304-330 | the loop terminates and writes the factor list, despite testing against the root of the original length |
| `FftFactor.Prepare` | 3rd/kissfft/kissfft.hh:18-47 | the C++ factoriser, with its different exit test, produces the identical list |
| `FftFactor.FastTest` | 3rd/kissfft/kiss_fft.c:398-406 | dividing out 2, 3 and 5 leaves at most 1 if and only if there is no other prime factor |
| `FftFactor.FastIffSmooth` | 3rd/kissfft/kiss_fft.c:396-408 | the lengths without other prime factors are exactly the products of powers of 2, 3 and 5 |
| `FftFactor.NextFastSize` | 3rd/kissfft/kiss_fft.c:396-408 | terminates below 2n with the least length from n on whose only prime factors are 2, 3 and 5 |
| `FftFactor.DivideOut` | 3rd/kissfft/kiss_fft.c:400-402 | one inner loop divides out all powers of its factor |
| `KissPlan.KissFftAlloc` | 3rd/kissfft/kiss_fft.c:339-368 | the loop over phases fills the twiddle table of the direction, and the plan is one the transforms can use |
| `KissPlan.KissFftStride` | 3rd/kissfft/kiss_fft.c:371-383 | the output is the transform of every stride-th input sample, also if input and output are the same buffer |
| `KissPlan.RoundTrip` | 3rd/kissfft/kiss_fft.c:339-383 | the inverse-configured transform of the transform of x is nfft times x |
| `KissPlan.TransformIsDft` | 3rd/kissfft/kiss_fft.c:339-383 | over the tables the plans compute, the transform is the textbook sum of samples times cosines and sines, in either direction |
| `KissPlan.ThereAndBack` | 3rd/kissfft/kiss_fft.c:339-383 | allocating both plans and running both directions in place on one buffer leaves nfft times its contents |
| `RealDft.RealSymmetry` | 3rd/kissfft/tools/kiss_fftr.c:67-121 | the spectrum of a real signal at -k is the conjugate of that at k |
| `RealDft.FullTransform` | 3rd/kissfft/tools/kiss_fftr.c:67-121 | the transform of a real signal from those of its even and odd samples |
| `RealDft.SplitBins` | 3rd/kissfft/tools/kiss_fftr.c:105-120 | the pair of bins k and m - k computed from the packed half-length transform is that of the real signal |
| `RealDft.EndBins` | 3rd/kissfft/tools/kiss_fftr.c:92-103 | the first and last bin are the sum and difference of the parts of packed bin 0 |
| `RealDft.InverseIsReal` | 3rd/kissfft/tools/kiss_fftr.c:123-159 | the inverse transform of a spectrum extended symmetrically has no imaginary part |
| `RealDft.InverseSamples` | 3rd/kissfft/tools/kiss_fftr.c:123-159 | the half-length inverse of the merged spectrum holds the even samples in its real and the odd ones in its imaginary parts |
| `KissFftReal.KissFftrAlloc` | 3rd/kissfft/tools/kiss_fftr.c:27-65 | fails exactly for odd lengths; otherwise sub-plan and rotation table, both computed from phases, are the even entries, and the entries turned by a quarter, of one table of the full length, conjugated for the inverse |
| `KissFftReal.RealBinIsDft` | 3rd/kissfft/tools/kiss_fftr.c:67-121 | bin k of a real signal is the sum of its samples times cosines, and minus that times sines |
| `KissFftReal.KissFftr` | 3rd/kissfft/tools/kiss_fftr.c:67-121 | bins 0 to nfft/2 are the DFT of the real input and nothing else is written |
| `KissFftReal.KissFftri` | 3rd/kissfft/tools/kiss_fftr.c:123-159 | the samples are the unnormalised inverse DFT of the symmetrically extended spectrum |
| `KissFftWrapper.KissIsFft` | src/librbbl/kiss_fft_wrapper.hpp:35-41 | the default wrapper meets the FFT contract: sizes, linearity, silence, and circular convolution with scaling factors 1 |
| `KissFftWrapper.RealRoundTrip` | 3rd/kissfft/tools/kiss_fftr.c:67-159 | kiss_fftri of the half spectrum that kiss_fftr makes of a real signal is nfft times the signal |
| `KissFftWrapper.RealThereAndBack` | 3rd/kissfft/tools/kiss_fftr.c:27-159 | allocating both real plans and running both directions leaves nfft times the samples, with half their DFT in between |
| `FftContract.RescaledIsFft` | src/librbbl/fft_wrapper_base.hpp:20-33 | a transform whose forward direction is multiplied by any non-zero constant meets the FFT contract with the factor multiplied |
| `KissFftWrapper.OtherScalesExist` | src/librbbl/fft_wrapper_base.hpp:20-33 | for every table length and every non-zero factor there is a transform that meets the contract with this forward scaling factor |
| `CircularBuffers.NextAlignedSize` | src/libefl/alignment.hpp:62-83 | the least multiple of the alignment that is not below the size |
| `CircularBuffers.CircularBuffer.constructor` | src/librbbl/circular_buffer.cpp:95-105 | an empty stream in which every delay reads silence |
| `CircularBuffers.CircularBuffer.AdvanceWriteIndex` | src/librbbl/circular_buffer.cpp:52-93 | both copies together restore the mirror image across the wrap-around, and the head advances modulo the capacity |
| `CircularBuffers.CircularBuffer.Write` | src/librbbl/circular_buffer.cpp:142-172 | refuses wrong channel counts and oversized blocks, otherwise appends the block to every channel's stream |
| `CircularBuffers.CircularBuffer.CommitWrite` | src/librbbl/circular_buffer.cpp:217-225 | samples placed at the write pointers become the end of the streams |
| `CircularBuffers.CircularBuffer.GetReadPointer` | src/librbbl/circular_buffer.hpp:157-163 | for every delay up to the length, that many contiguous in-bounds cells hold the last samples of the zero-prefixed stream |
| `CircularBuffers.CircularBuffer.ReadPointerShows` | src/librbbl/circular_buffer.hpp:157-163 | cell j behind the read pointer is sample j of the last delay samples of the stream, and zero before its start |
| `CircularBuffers.CircularBuffer.GetReadPointers` | src/librbbl/circular_buffer.cpp:227-238 | the same for all channels at once; refused exactly for delays not below the length |
| `PartitionedFir.BlockConvolution` | src/librbbl/core_convolver_uniform.cpp:222-248 | the second half of the circular convolution of a zero-padded partition with its window is the partition's share of direct FIR filtering |
| `PartitionedFir.PartitionSum` | src/librbbl/core_convolver_uniform.cpp:135-140 | the shares of all partitions add up to direct FIR filtering for every response that fits |
| `PartitionedFir.AccumulatedOutput` | src/librbbl/core_convolver_uniform.cpp:62-84 | after b partitions the inverse transform of the accumulator holds the sum of b shares |
| `PartitionedFir.ScaleCompensates` | src/librbbl/core_convolver_uniform.cpp:168-179 | the filter scaling constant cancels the loop gain of the transforms up to one forward scaling factor |
| `PartitionedFir.PartitionedIsDirect` | src/librbbl/core_convolver_uniform.cpp:62-133 | all partitions, gain and inverse transform: gain times forward scale times direct FIR |
| `PartitionedFir.ExactIffUnitScale` | src/librbbl/core_convolver_uniform.cpp:168-179 | over any transform and any number of partitions, the unaliased half of the accumulated inverse is the gain-scaled FIR output for all streams of whole blocks, responses that fit and gains if and only if the forward scaling factor is 1 |
| `CoreConvolvers.NumberOfPartitions` | src/librbbl/core_convolver_uniform.cpp:135-140 | the least number of blocks that hold the response |
| `CoreConvolvers.CoreConvolver.constructor` | src/librbbl/core_convolver_uniform.cpp:14-45 | all invariants hold, with silent history and the initial filters loaded |
| `CoreConvolvers.CoreConvolver.AdvanceFdl` | src/librbbl/core_convolver_uniform.cpp:181-185 | every window moves to the next slot and the oldest slot becomes the newest |
| `CoreConvolvers.CoreConvolver.ShiftDelayLine` | src/librbbl/core_convolver_uniform.cpp:50-60 | after the rotation slot b holds the spectrum of the window of b blocks ago for the extended stream |
| `CoreConvolvers.CoreConvolver.ProcessInputs` | src/librbbl/core_convolver_uniform.cpp:50-60 | keeps all slots equal to the spectra of their windows after one more block per input |
| `CoreConvolvers.SampleOfChannel` | src/librbbl/core_convolver_uniform.cpp:50-60 | sample n of channel ch is read at ch times the stride plus n |
| `CoreConvolvers.CoreConvolver.MultiplyBlock` | src/librbbl/core_convolver_uniform.cpp:66-84 | one partition's bin-wise product is stored or added |
| `CoreConvolvers.CoreConvolver.ProcessFilter` | src/librbbl/core_convolver_uniform.cpp:62-121 | the result row becomes, or is increased by, the gain-scaled sum over all partitions; other rows are kept |
| `CoreConvolvers.CoreConvolver.TransformOutput` | src/librbbl/core_convolver_uniform.cpp:123-133 | the second half of the inverse transform is copied out, the aliased half discarded |
| `CoreConvolvers.CoreConvolver.FilteredOutput` | src/librbbl/core_convolver_uniform.cpp:62-133 | in every valid state processFilter and transformOutput give gain times forward scale times direct FIR filtering of the whole input history |
| `CoreConvolvers.CoreConvolver.TransformImpulseResponse` | src/librbbl/core_convolver_uniform.cpp:222-248 | refused if too long, otherwise every partition is the spectrum of its scaled taps |
| `CoreConvolvers.CoreConvolver.LoadTaps` | src/librbbl/core_convolver_uniform.cpp:232-243 | the transform buffer holds the partition's scaled taps, zero elsewhere |
| `CoreConvolvers.CoreConvolver.SetImpulseResponse` | src/librbbl/core_convolver_uniform.cpp:250-261 | replaces one filter entry, refused for a bad index or an oversized response |
| `CoreConvolvers.CoreConvolver.SetFilter` | src/librbbl/core_convolver_uniform.cpp:263-273 | the spectra replace one entry as they are and all others are kept; the convolver's invariant holds with response ir in that entry if they are the spectra of ir |
| `CoreConvolvers.CoreConvolver.InitFilters` | src/librbbl/core_convolver_uniform.cpp:193-220 | replaces all entries, or leaves them all empty if the initialiser is refused |
| `CrossfadingConvolvers.VectorRamp` | src/libefl/reference/vector_functions_impl.hpp:61-83 | the linear ramp without its start and with its end value |
| `CrossfadingConvolvers.RampSteps` | src/libefl/reference/vector_functions_impl.hpp:61-83 | the ramp values are evenly spaced from the start, which is left out, to the end |
| `CrossfadingConvolvers.CrossoverRamps` | src/librbbl/crossfading_convolver_uniform.cpp:48-82 | both ramp rows hold the fade-in and fade-out factors, constant after the transition |
| `CrossfadeModel.FadeBounds` | src/librbbl/crossfading_convolver_uniform.cpp:48-82 | the two factors add up to one and lie between zero and one |
| `CrossfadeModel.FadeSteps` | src/librbbl/crossfading_convolver_uniform.cpp:48-82 | the fade grows by one over the transition length at every sample, starts with one such step, and is complete at the last one |
| `CrossfadingConvolvers.CrossfadingConvolver.constructor` | src/librbbl/crossfading_convolver_uniform.cpp:15-83 | starts in the steady state of the first bank with the initial routings installed one by one, usable if every one names a filter of one bank; all its parts are newly allocated |
| `CrossfadingConvolvers.CrossfadingConvolver.ConstructedState` | src/librbbl/crossfading_convolver_uniform.cpp:41-45 | that steady state as an abstract state, from which runs start |
| `CrossfadingConvolvers.CrossfadingConvolver.SetImpulseResponse` | src/librbbl/crossfading_convolver_uniform.cpp:289-319 | the new response fades in, the one that was fading in fades out, and the ramp restarts only on request |
| `CrossfadingConvolvers.CrossfadingConvolver.SetTransformedFilter` | src/librbbl/crossfading_convolver_uniform.cpp:321-345 | the spectra go into the bank that was fading out and the banks switch; for spectra of a response that fits this is setImpulseResponse of it |
| `CrossfadingConvolvers.CrossfadingConvolver.FadedOutput` | src/librbbl/crossfading_convolver_uniform.cpp:119-161 | the faded sum of both banks' direct FIR outputs for one routing |
| `CrossfadingConvolvers.CrossfadingConvolver.ProcessOutputs` | src/librbbl/crossfading_convolver_uniform.cpp:101-177 | every output sample is the mix over all routings, and every ramp counter advances up to its last block |
| `CrossfadingConvolvers.CrossfadingConvolver.Process` | src/librbbl/crossfading_convolver_uniform.cpp:89-99 | one step of the abstract run, and the mixed output for the block just heard |
| `CrossfadingConvolvers.CrossfadingConvolver.Perform` | src/librbbl/crossfading_convolver_uniform.cpp:89-345 | any sequence of process, setImpulseResponse, setTransformedFilter, setRoutingEntry, clearRoutingTable and initRoutingTable calls takes the component through the abstract run of those calls, in which refused ones change nothing |
| `CrossfadingConvolvers.CrossfadingConvolver.PerformAndProcess` | src/librbbl/crossfading_convolver_uniform.cpp:89-345 | after any such sequence from a steady, silent start the next process call outputs the textbook crossfade of FIR outputs read off the calls, over the routing table the calls leave |
| `CrossfadingConvolvers.ConstructAndPerform` | src/librbbl/crossfading_convolver_uniform.cpp:15-345 | from the constructor on: the next output is the sum over the routing table of gain-weighted crossfades of FIR outputs; if the initial pairs are distinct and no call changes the table, it is the sum over the initial routing list itself |
| `CrossfadeModel.RunTable` | src/librbbl/crossfading_convolver_uniform.cpp:178-254 | the routing table after a run is determined by its table calls alone, whatever filters are set and samples processed in between |
| `CrossfadeModel.LastSet` | src/librbbl/crossfading_convolver_uniform.cpp:289-345 | the response heard at the end is the one of the last call that set it, by taps or by spectra |
| `CrossfadeModel.SinceStart` | src/librbbl/crossfading_convolver_uniform.cpp:145-177 | the age of a fade is the number of process calls after the last call that started one |
| `CrossfadeModel.HeardAt` | src/librbbl/crossfading_convolver_uniform.cpp:89-99 | a channel consists of the blocks of the process calls in order, sample by sample |
| `CrossfadeModel.FadingShare` | src/librbbl/crossfading_convolver_uniform.cpp:119-161 | during a transition of T samples, sample i of it weights the new response by (i + 1) / T and the old one by the rest |
| `CrossfadeModel.HistoryIsSum` | src/librbbl/crossfading_convolver_uniform.cpp:117-170 | an output is the sum over the routings that end there |
| `CrossfadeModel.ListOutput` | src/librbbl/crossfading_convolver_uniform.cpp:188-204 | a table made from a list of distinct pairs sounds like the list: every entry counts, with its own gain, wherever the table puts it |
| `CrossfadingConvolvers.StartMeans` | src/librbbl/crossfading_convolver_uniform.cpp:15-46 | at the start every index plays its initial filter in full, or silence if it has none |
| `RoutingTables.PutAllHolds` | src/librbbl/crossfading_convolver_uniform.cpp:188-204 | an entry is in a table made from a list if and only if it is in the list and no later entry there has the same input and output |
| `RoutingTables.PutAllDistinct` | src/librbbl/crossfading_convolver_uniform.cpp:188-204 | from a list of distinct pairs every entry comes into the table, and no other |
| `CrossfadeModel.RunMatchesHistory` | src/librbbl/crossfading_convolver_uniform.cpp:89-345 | after any run the two banks hold the last two responses set, and the ramp counts the blocks since the last transition |
| `CrossfadeModel.RampIsHistory` | src/librbbl/crossfading_convolver_uniform.cpp:145-177 | the factor read at the ramp counter is the one for the time since the transition started |
| `CrossfadeModel.TransitionEnds` | src/librbbl/crossfading_convolver_uniform.cpp:41-44 | after ceil(transition / block) process calls the output of a routing is the direct FIR output of the last response set alone |
| `CrossfadeModel.OutputIsHistory` | src/librbbl/crossfading_convolver_uniform.cpp:89-345 | whole runs: the output is the textbook crossfade of FIR outputs, with signals, responses and fades read off the history of calls |
| `RoutingTables.PutKeepsOrder` | src/librbbl/crossfading_convolver_uniform.cpp:240-252 | setting an entry keeps the table ordered and free of duplicates, and grows it only if no entry had the same input and output |
| `RoutingTables.PutReplaces` | src/librbbl/crossfading_convolver_uniform.cpp:240-252 | the table then holds the entry and exactly the old entries with another input or output |
| `CrossfadingConvolvers.CrossfadingConvolver.ClearRoutingTable` | src/librbbl/crossfading_convolver_uniform.cpp:182-186 | the table is empty |
| `CrossfadingConvolvers.CrossfadingConvolver.SetRoutingEntry` | src/librbbl/crossfading_convolver_uniform.cpp:214-254 | exactly when it is refused, the table it leaves, and when that table stays usable |
| `CrossfadingConvolvers.CrossfadingConvolver.InitRoutingTable` | src/librbbl/crossfading_convolver_uniform.cpp:188-204 | exactly when a list is refused; an entry is in the table afterwards if and only if it is in the part of the list that was taken (nothing of a list that is too long, else what comes before the first entry out of range) and no later entry there has the same input and output |
| `PanningModel.MessageKeepsInv` | src/libpanningdsp/panning_gain_matrix.cpp:282-353 | every message keeps previous time <= now < target time <= pending start, and unbounded slopes flat |
| `PanningModel.IterKeepsInv` | src/libpanningdsp/panning_gain_matrix.cpp:178-231 | so does every stretch of samples, whatever switches it contains |
| `PanningModel.BlockSizeIndependence` | src/libpanningdsp/panning_gain_matrix.cpp:178-231 | however time is cut into blocks, every sample meets the same state and the final state is the same |
| `PanningModel.AppliedInHull` | src/libpanningdsp/panning_gain_matrix.cpp:235-256 | every applied gain lies between the bounds of the gains held, aimed at and pending |
| `PanningModel.RunStaysInHull` | src/libpanningdsp/panning_gain_matrix.cpp:178-353 | over any run, also with transitions re-targeted midway, no applied gain leaves the range of the gains asked for |
| `PanningModel.RunAppend` | src/libpanningdsp/panning_gain_matrix.cpp:107-111 | runs over successive process calls compose |
| `PanningModel.MessageStartsPlan` | src/libpanningdsp/panning_gain_matrix.hpp:54-90 | a message that finds the gains constant replaces what has not started and makes the object follow the new plan |
| `PanningModel.FreshFollows` | src/libpanningdsp/panning_gain_matrix.cpp:61-90 | a freshly constructed object follows the plan of holding its initial gains, so trajectories start there |
| `PanningModel.FollowingGives` | src/libpanningdsp/panning_gain_matrix.hpp:54-90 | an object that follows a plan gets the gain of its piecewise linear curve |
| `PanningModel.ConstantIffHolds` | src/libpanningdsp/panning_gain_matrix.hpp:54-90 | the stored gains are constant if and only if the plan made of the messages holds its gains at that time |
| `PanningModel.Trajectory` | src/libpanningdsp/panning_gain_matrix.hpp:54-90 | over any run whose messages come while the plan of the earlier messages holds its gains, every sample gets the curve made of the messages alone |
| `PanningModel.MessageReachesPlan` | src/libpanningdsp/panning_gain_matrix.cpp:282-353 | a message at any time, also in the middle of a transition, keeps the object on its slope until the start and puts it on the plan of the message from there: departing from the previous gains at once, or from those the slope ends with |
| `PanningModel.OnTheLine` | src/libpanningdsp/panning_gain_matrix.cpp:122-137 | interpolated gains lie on the line from previous to target gains at the fraction of the slope that has passed |
| `PanningModel.RestartGains` | src/libpanningdsp/panning_gain_matrix.cpp:301-321 | an immediate transition departs from the interpolated gains if and only if the running slope has just begun or is flat |
| `PanningModel.CutShortGains` | src/libpanningdsp/panning_gain_matrix.cpp:333-347 | a shortened transition aims for the gains interpolated at its new end if and only if the running slope is flat |
| `PanningGainMatrices.RestartJumps` | src/libpanningdsp/panning_gain_matrix.cpp:301-321 | a run from the constructed state in which an immediate transition departs from 0.0 in place of 0.5, and the applied gain falls from 0.5 to 0.1 |
| `PanningGainMatrices.CutShortMisses` | src/libpanningdsp/panning_gain_matrix.cpp:333-347 | a run from the constructed state in which a shortened transition aims for 0.5 in place of 0.7 |
| `PanningGainMatrices.SlopeGain` | src/libpanningdsp/panning_gain_matrix.cpp:122-137 | start ratio, increment and the ramp 1, 2, 3, ... give each sample the slope's gain, reached on its last sample |
| `PanningGainMatrices.PanningGainMatrix.constructor` | src/libpanningdsp/panning_gain_matrix.cpp:61-90 | every object holds its initial gains with nothing pending |
| `PanningGainMatrices.PanningGainMatrix.SwitchObject` | src/libpanningdsp/panning_gain_matrix.cpp:196-230 | at the target time the pending transition starts, jumps, or the gains are held until it does |
| `PanningGainMatrices.PanningGainMatrix.UpdateTransition` | src/libpanningdsp/panning_gain_matrix.cpp:282-353 | the stored rows and times become those of the reference's message step; refused exactly for time stamps in the past |
| `PanningGainMatrices.PanningGainMatrix.UpdateTransitions` | src/libpanningdsp/panning_gain_matrix.cpp:268-280 | the same for all objects |
| `PanningGainMatrices.PanningGainMatrix.ScaleSignal` | src/libpanningdsp/panning_gain_matrix.cpp:355-368 | to every sample of a stretch of one output channel the ramped gain times the input sample is added, or replaces it; the rest is kept |
| `PanningGainMatrices.PanningGainMatrix.ProcessAudioSingleSlope` | src/libpanningdsp/panning_gain_matrix.cpp:235-256 | the same for all loudspeakers with the gains of the object's slope |
| `PanningGainMatrices.PanningGainMatrix.ProcessObject` | src/libpanningdsp/panning_gain_matrix.cpp:178-231 | the loop terminates with all its assertions, writes each sample of the block once with the reference's gain, and leaves the reference's state |
| `PanningGainMatrices.PanningGainMatrix.ProcessAudio` | src/libpanningdsp/panning_gain_matrix.cpp:154-233 | every output sample is the sum over objects of reference gain times sample, zero without objects |
| `PanningGainMatrices.PanningGainMatrix.Process` | src/libpanningdsp/panning_gain_matrix.cpp:107-111 | one call is, for each object, a message if there is one and one sample event per sample of the block |
| `PanningGainMatrices.MixdownIsSum` | src/libpanningdsp/panning_gain_matrix.cpp:154-233 | the contributions of the objects add up: the mix is the sum of gain times sample |
| `PanningGainMatrices.BlockRun` | src/libpanningdsp/panning_gain_matrix.cpp:107-111 | such an event list is the message followed by block-wise iteration |
| `PanningRuns.Perform` | src/libpanningdsp/panning_gain_matrix.cpp:107-111 | process call after process call takes every object through the reference run of its messages and samples |
| `PanningRuns.PerformAndProcess` | src/libpanningdsp/panning_gain_matrix.cpp:107-111 | after any such run, every output sample of the next call is the sum over objects of sample times the gain their events alone prescribe |
| `PanningOutputs.PlayTrajectories` | src/libpanningdsp/panning_gain_matrix.hpp:54-90 | if every object's messages come while its earlier ones hold their gains, every output sample is the sum over objects of sample times the piecewise linear curve of the messages |
| `PanningOutputs.HeardWithin` | src/libpanningdsp/panning_gain_matrix.cpp:178-353 | over any run of calls, no gain applied to any loudspeaker leaves the range of the initial gains and those asked for |
| `PanningOutputs.MixWithin` | src/libpanningdsp/panning_gain_matrix.cpp:154-233 | over any run of calls, with gains up to g and samples up to a in size no output sample exceeds g * a per object |
| `LagrangeTheory.Kronecker` | src/libefl/lagrange_coefficient_calculator.cpp:85-118 | at a sample position its own weight is 1 and all others are 0 |
| `LagrangeTheory.Unity` | src/libefl/lagrange_coefficient_calculator.cpp:85-118 | the weights of any distinct nodes add up to one at every position |
| `LagrangeTheory.Reproduces` | src/libefl/lagrange_coefficient_calculator.cpp:85-118 | with n nodes the weighted sum is exact for every polynomial with at most n coefficients |
| `Lagrange.PairOthers` | src/libefl/lagrange_coefficient_calculator.cpp:50-55 | all-but-one products follow from those of the pairs by swapping within each pair |
| `Lagrange.OddOthers` | src/libefl/lagrange_coefficient_calculator.cpp:56-59 | and the odd last entry takes its own from the half-length array |
| `Lagrange.MultiplyAndShuffle` | src/libefl/lagrange_coefficient_calculator.cpp:31-75 | every entry becomes the product of all other original entries, for every length from 1 on, zeros included; the rest of the buffer is kept |
| `Lagrange.Nodes` | src/libefl/lagrange_coefficient_calculator.cpp:97-103 | the sample positions are distinct in either order |
| `Lagrange.NodesCentred` | src/libefl/lagrange_coefficient_calculator.cpp:97-103 | the positions ascend from minus half the order in steps of one, are symmetric about zero, and are the same backwards in reverse order |
| `Lagrange.ScaleFactor` | src/libefl/lagrange_coefficient_calculator.cpp:105-118 | the loop computes one over the product of the distances to all other positions |
| `Lagrange.LagrangeCoefficientCalculator.constructor` | src/libefl/lagrange_coefficient_calculator.cpp:23-29 | offsets and scale factors of all positions |
| `Lagrange.LagrangeCoefficientCalculator.CalculateCoefficients` | src/libefl/lagrange_coefficient_calculator.cpp:85-95 | the result holds the Lagrange weight of every position; at the position of an index, counted up or down as the order says, that index gets weight 1 and all others 0 |
| `Lagrange.LagrangeCoefficientCalculator.Interpolates` | src/libefl/lagrange_coefficient_calculator.cpp:85-118 | those weights interpolate polynomials up to the order exactly, add up to one and pick samples at their positions |
| `Cap.SpreadPositive` | src/libpanning/CAP.cpp:88-88 | c*n - b*b is never negative, and zero if and only if all projections are equal |
| `Cap.GainsMeetConstraints` | src/libpanning/CAP.cpp:77-101 | the gain-weighted projections cancel and the gains add up to the distance correction |
| `Cap.GainsHaveLeastEnergy` | src/libpanning/CAP.cpp:77-101 | any other gain vector with these two sums has strictly more energy |
| `Cap.LimiterKeeps` | src/libpanning/CAP.cpp:105-111 | limiting keeps the cancellation, bounds every gain by the maximum, acts only when needed and then makes the largest gain the maximum |
| `Cap.InterauralCue` | src/libpanning/CAP.cpp:79-86 | cancelling projections means that the interaural component of the panned directions is that of the image |
| `Cap.SourceGainsPan` | src/libpanning/CAP.cpp:58-113 | all of this for the gains computed for a source |
| `Cap.UnitIsUnit` | src/libpanning/XYZ.h:58-85 | with a true square root lengths vanish at the origin only, and a normalised vector has unit length and the old direction |
| `Cap.SourceIsThere` | src/libpanning/CAP.cpp:60-75 | going the image distance in the image direction, from the listener or for a source at infinity from the origin, leads to the source position; the other distance is that from the origin |
| `Cap.SpeakersAreThere` | src/libpanning/CAP.cpp:43-51 | every loudspeaker lies at some distance from the listener in its unit direction |
| `Cap.RegularSource` | src/libpanning/CAP.cpp:58-88 | with a true square root the source divides by zero exactly for sources at the origin and for loudspeakers with equal projections |
| `Cap.CapPanner.CalcGains` | src/libpanning/CAP.cpp:31-113 | from loudspeaker and source positions and the listener: every row whose source is off the origin and whose projections are not all equal holds the limited closed-form gains of its source, whatever other rows hold, and columns beyond the loudspeakers are zero |
| `Vbap.TripletReconstructs` | src/libpanning/VBAP.cpp:187-208 | the gains from a triplet's matrix reproduce the vector if and only if the determinant is not zero or the vector is |
| `Vbap.NormalisedPoints` | src/libpanning/VBAP.cpp:82-92 | with a true square root a vector that is not too short becomes the unit vector of its direction |
| `Vbap.LeastGain` | src/libpanning/VBAP.cpp:263-279 | the least gain is one of the three and not above any of them |
| `Vbap.CandidateUnlessTwo` | src/libpanning/VBAP.cpp:257-279 | a triplet is a candidate if and only if no two of its gains are negative |
| `Vbap.WinnerUnique` | src/libpanning/VBAP.cpp:250-285 | at most one triplet wins, and none does when every triplet has two negative gains |
| `Vbap.WinnerMeans` | src/libpanning/VBAP.cpp:250-285 | with enclosing triplets around the first of them wins; with none, no candidate has a larger least gain than the winner and no earlier one an equal one |
| `Vbap.NoWinnerMeans` | src/libpanning/VBAP.cpp:281-285 | there is no winner if and only if every triplet has two negative gains and none encloses the source |
| `Vbap.SearchStep` | src/libpanning/VBAP.cpp:270-279 | a triplet takes over exactly if its least gain is larger than the best so far |
| `Vbap.VbapPanner.CalcInvMatrices` | src/libpanning/VBAP.cpp:134-211 | the table holds the matrix of every triplet for the present listener position |
| `Vbap.VbapPanner.SetListenerPosition` | src/libpanning/VBAP.cpp:113-116 | moves the listener and renews the table |
| `Vbap.VbapPanner.SpeakerIsThere` | src/libpanning/VBAP.cpp:134-186 | every loudspeaker not at the listener's place lies at some distance from the listener in its unit direction |
| `Vbap.VbapPanner.ThirdIsAbove` | src/libpanning/VBAP.cpp:134-186 | for a planar array the third direction points to the place one above the origin |
| `Vbap.VbapPanner.Search` | src/libpanning/VBAP.cpp:250-280 | the first enclosing triplet, else the first with the largest least gain among those with at most one negative gain, if any |
| `Vbap.VbapPanner.CalcPlainVbap` | src/libpanning/VBAP.cpp:214-308 | fails exactly without a candidate; otherwise the winner's gains are set and all others are zero, and unless its triplet is degenerate the gain-weighted directions lead from the listener to a point source, or in the direction of a plane wave; in the plane as far as x and y go |
| `Vbap.VbapPanner.PlainPans` | src/libpanning/VBAP.cpp:286-302 | the directions of all loudspeakers weighted by their gains add up to the source vector |
| `Vbap.VbapPanner.PlainSigns` | src/libpanning/VBAP.cpp:257-279 | no gain is negative if the triplet encloses the source, at most one otherwise |
| `Vbap.VbapPanner.EnclosesIff` | src/libpanning/VBAP.cpp:257-262 | a triplet of distinct loudspeakers encloses the source if and only if it gives no negative gain |
| `Vbap.VbapPanner.ApplyRerouting` | src/libpanning/VBAP.cpp:310-319 | every regular loudspeaker adds the sum of coefficient times gain over the virtual ones, whose gains stay |
| `Vbap.ReroutingConserves` | src/libpanning/VBAP.cpp:310-319 | the total gain of the regular loudspeakers becomes the sum of their gains plus each virtual gain times its coefficient sum |
| `Vbap.VbapPanner.CalculateGainsUnNormalised` | src/libpanning/VBAP.cpp:105-110 | search, rerouting and copy together: the gains before rerouting lead to the source, and each regular loudspeaker gets its own plus its shares |

## Left out

- Floating-point rounding, vectorised kernels, alignment hints, fixed-point arithmetic and OpenMP: exact arithmetic is used throughout.
- Cosine, sine and pi: parameters with the properties of `Twiddles.IsTrig`, which are those of the exact functions; the decimal approximation of pi in the source is taken as pi.
- Square roots: the panners take the square root as an arbitrary function and the results hold for any; where they need a true one, they say so.
- Overflow of time stamps and sizes: time stamps plus durations are required to stay below the infinite time stamp, lengths below 2^31 where the source stores an int.
- Pointers and strides: output buffers are rows of matrices, and read and write pointers are column indices; do-while loops over pointers are loops over indices.
- Constructors: arguments for which the source's constructors throw are excluded by preconditions, as a Dafny constructor returns no status.
- CrossfadingConvolvers.CrossfadingConvolver.Perform: spectra given to setTransformedFilter in a run are those of a response that fits, because no response describes the output for others; the table names filters of one bank whenever process is called, as ProcessOutputs requires. removeRoutingEntry and initFilters are not calls of a run.
- KissFft.KfWork: the input and output buffers are distinct, as its callers make sure.
- CrossfadingConvolvers.CrossfadingConvolver.ProcessOutputs: requires a usable table, because for a larger filter index the source reads outside its vectors of bank numbers and ramp counters, which has no defined result.
- CrossfadingConvolvers.CrossfadingConvolver.Process: requires a usable table for the same reason.
- Cap.CapPanner.CalcGains: says nothing about rows for which the source divides by zero (equal projections, a source at the origin) or about negative limits; one and two loudspeakers, the high-frequency mode and the listener's orientation are not modelled.
- Vbap.VbapPanner.PlainPans: for arrays in the plane only if both loudspeakers are level with the listener, because the third gain is dropped.
- Power normalisation of VBAP gains, and the variant that combines VBAP with CAP.
- removeRoutingEntry, and initFilters of the crossfading convolver after construction.
- The C++ transform template in kissfft.hh, except for its factoriser.
- Other FFT implementations: they enter through the FFT contract only.
- The multichannel and the interpolating convolvers, delay lines and other components built on these cores.
- Message queues, parameter ports, parsers, audio interfaces, factories and command-line tools.
