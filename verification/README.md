# Oil-tank radar gateway: a verified model

The gateway receives UDP datagrams from an FMCW radar, unpacks them into sample lines, turns each frame
into a range-Doppler matrix with two passes of an in-place FFT, detects and cleans peaks, converts the
best one into a level measurement with a thermal correction, and stores measurements through a batching
database writer. Worker pools joined by bounded channels carry the data; a hysteresis gate throttles
the demultiplexer; `main` shuts everything down in a fixed order.

This project models that chain and the pipeline around it. Loops that work on arrays are methods on
arrays proved against specification functions; objects that change their fields are classes; goroutines
are transition systems over any number of workers. `float64` is `real`, `complex128` is a pair of reals,
and `sin`, `cos`, `atan2`, `hypot`, `sqrt`, `log` are parameters of which only algebraic laws are used.
`dafny verify dfyconfig.toml` checks everything.

## Layout

| files | contents |
|---|---|
| Reals, RealSums, Ints, Complex, Bits, Matrix, Sums, GridSums, Numeric, Peaks | arithmetic and shared vocabulary |
| Dft, SpectrumLaws, BitReverse, Stages | the DFT as a sum, its laws, the recursive network and its stages |
| GoFft, CFft, CFft2d, FftShift | the in-place transforms and shifts of the Go engine and of the C library |
| RangeDoppler, StaleLines, ProcessFrame, FrameLaws | both passes over a frame through one reused work buffer, when a line leaks into the next, the frame method around them, and what it shares with the engine |
| PhaseUnwrap, Cfar, CCfar, Coherence, CoherenceLaws, PictureMask, Multipath, SubPixel, SubPixelLaws, DetectPeaks | detection and post-processing, scores and iterations written out, and the mask on the frame method's pictures |
| Backpressure, Pipeline, BatchWriter, PipelineHistory | the gate, the worker pools with the shutdown sequence, the database writer, and what runs of the whole do to their items |
| BitFields, Framer, FramerLaws, ParsedFrames | bit unpacking, frame parsing, and which lines the range pass reads of a parsed frame |
| Thermal, ThermalLaws, Ranging | ring integration and running statistics |

## What the proofs show about the code

Where a promise does not hold of the code as it stands, the exact condition under which it does is proved:

- A line is transformed from its own samples alone, for all sample values of a frame, exactly when no line that
  is visited after the first is short (fewer samples than are read) behind a line that the window does not
  silence (`FramePureExactly`). A two-chirp frame with an empty second line repeats the first (`EmptyLineLeaks`).
- The picture copied by the frame method reads rows of (Doppler bin, channel) pairs as Doppler bins. Shifted or
  not, that shows channel 0 of every frame exactly for one channel, one Doppler bin, or where one of the two
  windows lets nothing through (`PictureTrueExactly`, `RowsTrueExactly`); `TwoChannelPicture` is a frame with a wrong picture.
- The parser stores a row per channel with its chirps one after the other; the range pass looks for a row per
  chirp. It reads what was stored, for all frames, exactly for at most one chirp, no channel or no sample
  (`ParsedLinesExactly`); then a line is the channel's part of the payload (`DatagramToLine`).
- The frame method hands the coherence mask a picture of magnitudes, whose phases are all 0. The mask can then
  act exactly for fewer than three Doppler bins or a threshold above the phase weight, cut to 1
  (`CanMaskExactly`); with the shipped weights and threshold it never does (`ShippedMaskIdle`).
- Engine and frame method give all frames the same profile exactly when the window name is not `kaiser`, or the
  Kaiser window is flat wherever a sample is read (`EngineAgreesExactly`). For all other names the unshifted
  matrices agree too (`FrameMatchesEngine`).
- Phase unwrapping bounds successive steps by its threshold exactly when the threshold is at least pi; the
  configured 3.14159 is below it (`SmoothExactly`, `ShippedThresholdEscapes`). The Go and C versions agree on an
  input exactly when each of its odd half-turn steps keeps its sign when the whole turns in the steps before it
  are added (`VersionsAgreeExactly`).
- The C 2D inverse undoes the forward call exactly when both or neither got the column buffer, or there is
  one row (`RoundTripExactly`).
- On non-empty matrices the shift is cyclic exactly when each dimension is even or one (`CyclicExactly`).
- A strongest peak always survives multipath suppression exactly when the null depth is at most 1
  (`KeepsAStrongestExactly`).
- Channel offsets are exact and a smallest accepted frame is read completely exactly when a channel is a whole
  number of bytes (`ExactLayoutExactly`). The pool's frames have a row per chirp that holds one chirp; every
  accepted frame fits them exactly for at most one chirp and no more channels than rows, unless nothing is
  accepted or there is no channel (`PooledRowsFitExactly`).
- The gate can close exactly when there are at least as many workers as its high mark (`CanPauseExactly`);
  `main` uses 1000 with a handful of workers.
- After a bulk update at the design temperature the thermal correction is zero exactly when the sensor count
  leaves 0 or 1 modulo 4 (`ZeroAtDesignExactly`).
- Heating never shrinks a tank of equal rings exactly when a ring's axial ratio is not reset at 150 degrees
  (`TotalNeverShrinksExactly`, `NeverShrinksExactly`). A reset takes both rings under 0.1 m and an expansion
  coefficient above 0.1 / (150 - design), far above that of steel (`ResetExactly`); `ThinTankShrinks` is such a tank.
- Distances of detected peaks are never negative. Over all runs of such distances in the configured range, each
  of which occurs (`Replay`), the running minimum and maximum are the true ones exactly when the minimum distance
  is positive or the maximum is not (`ExtremaExactly`). As `main` replaces a minimum of 0, a negative minimum with
  a positive maximum is what fails (`DefaultedExtremaExactly`).
- The range check after temperature compensation rejects no chosen peak exactly when compensation is off or the
  temperature is 20 (`ChoiceStandsExactly`).
- The writer's counters account for every accepted measurement exactly while every copy reports all rows it was
  given (`BalanceExactly`, `BalanceThroughoutExactly`, `CopyFallsShort`).
- The sub-pixel iteration takes its slopes at grid cells. A quadratic peak that is steep at every cell near it is
  never settled on (`OffGridNeverSettles`); with the shipped settings a peak a fifth of a bin beyond its cell is
  reported back at the cell, as converged (`ShippedSettingsMissTheTop`).
- An accepted measurement can stay in the queue when the gateway stops exactly when the queue is not empty as
  `main` stops the storage (`LeftBehindExactly`), and always does when the storage did not come up, since demux and
  sink still offer to it (`NothingTakenWithoutStorage`). Demux and sink both store what passes them (`PacketIsStoredTwice`).
- A batch that could not get a connection is counted as failed but keeps its references (`FlushBatch`).

## Model

| member | source | states |
|---|---|---|
| BitReverse.RevInvolution | internal/fft/processor.go:464-480 | reversing the low bits of an index twice gives the index back and stays below the length |
| BitReverse.RevInjective | internal/fft/processor.go:464-480 | the bit-reverse table is a permutation |
| BitReverse.BitReverseIndices | internal/fft/processor.go:464-480 | the table built by the shifting loops holds the bit reversal of every index, for any length |
| BitReverse.ReverseBits | internal/fft/fftwrap/fft2d.c:50-57 | the C loop computes the same reversal |
| BitReverse.ScatteredIsBitReversed | internal/fft/processor.go:214-226 | scattering a line through the table is the even/odd reordering the network expects |
| Dft.NetworkIsDft | internal/fft/processor.go:464-498 | for every power-of-two length, input and base with w^(n/2) = -1, the butterfly network on the reordered input is the quadratic DFT sum at every bin |
| Dft.DftSplit | internal/fft/processor.go:482-498 | a DFT of even length from the DFTs of its even and odd samples |
| Dft.ButterflyBin | internal/fft/processor.go:489-495 | one butterfly yields both bins, j and j + n/2, of the longer transform |
| GoFft.FftInPlace | internal/fft/processor.go:482-498 | the triple loop leaves exactly the network's result, touches nothing past n and runs n/2 * log2(n) butterflies, with every index in range |
| SpectrumLaws.Inversion | internal/fft/fftwrap/fft2d.c:92-98 | a second DFT with the reciprocal base returns n times the input |
| SpectrumLaws.Orthogonality | internal/fft/processor.go:482-498 | the rows of the transform kernel are orthogonal, with squared length n |
| SpectrumLaws.ButterfliesEnergy | internal/fft/processor.go:489-495 | with unit-modulus twiddles one stage doubles the sum of squared magnitudes |
| SpectrumLaws.NetworkEnergy | internal/fft/processor.go:482-498 | all stages together multiply the energy by the length |
| SpectrumLaws.Parseval | internal/fft/processor.go:464-498 | the spectrum's energy is n times the signal's |
| CFft.FftCooleyTukey | internal/fft/fftwrap/fft2d.c:59-99 | swapping, running twiddle and 1/n scaling transform one window in place and leave the rest of the array alone; n <= 1 returns early |
| CFft.LineIsDft | internal/fft/fftwrap/fft2d.c:59-99 | the C transform is the same DFT sum as the table-driven one, scaled by 1/n for the inverse |
| CFft.LineRoundTrip | internal/fft/fftwrap/fft2d.c:59-99 | the inverse undoes the forward transform exactly |
| CFft.LineRoundTripBack | internal/fft/fftwrap/fft2d.c:59-99 | the forward transform undoes the inverse exactly |
| CFft2d.Fft2d | internal/fft/fftwrap/fft2d.c:105-126 | row pass, then column pass through the copy buffer when it could be allocated |
| CFft2d.PassesCommute | internal/fft/fftwrap/fft2d.c:105-126 | row and column passes commute, in any mix of directions |
| CFft2d.RoundTrip2d | internal/fft/fftwrap/fft2d.c:105-126 | fft_2d inverse after fft_2d forward is the identity for all power-of-two rows and columns |
| CFft2d.RoundTripExactly | internal/fft/fftwrap/fft2d.c:105-126 | the round trip holds for every matrix if and only if both or neither call got its column buffer, or there is one row |
| CFft2d.OneSidedBuffer | internal/fft/fftwrap/fft2d.c:110-111 | a matrix that is not restored when only one of the calls got the buffer |
| FftShift.ShiftRowCopy | internal/fft/processor.go:500-520 | the row-copy version leaves the matrix with both axes' halves exchanged and nothing else changed |
| FftShift.ShiftElements | internal/fft/fftwrap/fft2d.c:418-445 | so does the element-swap version |
| FftShift.ShiftedIsUnique | internal/fft/fftwrap/fft2d.c:418-445 | the two versions give the same matrix |
| FftShift.ShiftTwice | internal/fft/processor.go:500-520 | shifting twice is the identity for all rows and columns |
| FftShift.ShiftIsCyclic | internal/fft/processor.go:500-520 | for even dimensions the shift is the cyclic one by half of each |
| FftShift.CyclicExactly | internal/fft/processor.go:500-520 | on a non-empty matrix it is cyclic if and only if each dimension is even or 1 |
| Bits.PowerOfTwoTest | internal/fft/fft_go.go:32-37 | n & (n-1) == 0 accepts exactly the powers of two |
| RangeDoppler.GoEngine.Init | internal/fft/fft_go.go:31-58 | succeeds exactly for two power-of-two sizes, with tables fit for both transforms, and changes nothing otherwise |
| RangeDoppler.GoEngine.BuildTwiddle | internal/fft/fft_go.go:39-49 | entry i of the table is the i-th power of the base |
| RangeDoppler.GoEngine.LoadLine | internal/fft/fft_go.go:140-153 | the work buffer then holds the reordered, windowed, zero-padded line, with old values only where the loops write nothing |
| StaleLines.FramePureExactly | internal/fft/fft_go.go:136-161 | over all sample values of a frame of given line lengths, every line comes out as the DFT of its own samples if and only if no visited line after the first is short behind a line the window lets through |
| StaleLines.EmptyLineLeaks | internal/fft/fft_go.go:145-152 | a frame of two lines whose empty second line comes out as the first |
| StaleLines.SpectrumOneToOne | internal/fft/fft_go.go:183-202 | signals with the same spectrum are the same |
| RangeDoppler.LinesAreIndependent | internal/fft/fft_go.go:136-161 | whatever was processed before, a line that is not short is transformed to the DFT of its own samples |
| RangeDoppler.GoEngine.RangePass | internal/fft/fft_go.go:136-161 | the profile holds the magnitudes of every line in row-major order and nothing else is written |
| RangeDoppler.GoEngine.DopplerPass | internal/fft/fft_go.go:163-180 | the matrix holds, at each address, the magnitude of the slow-time DFT of that channel and range bin |
| RangeDoppler.GoEngine.RangeDopplerFFT | internal/fft/fft_go.go:126-181 | both passes over one frame; in a frame that cannot leak the profile is a pure function of each line |
| RangeDoppler.AddressInjective | internal/fft/fft_go.go:175-178 | different (bin, channel, range bin) are written to different cells |
| RangeDoppler.AddressCovers | internal/fft/fft_go.go:175-178 | every cell of the output is written |
| FrameLaws.FrameMatchesEngine | internal/fft/processor.go:187-254 | for every window name but kaiser the frame method's profile and unshifted matrix are the engine's on the same frame |
| FrameLaws.EngineAgreesExactly | internal/fft/processor.go:438-462 | both give all frames the same profile if and only if the name is not kaiser or that window is flat wherever a sample is read |
| FrameLaws.ProfilesAgreeExactly | internal/fft/processor.go:210-235 | two non-negative windows give all frames the same profile if and only if they agree wherever a sample is read |
| ProcessFrame.ResolvedDims | internal/fft/processor.go:167-185 | the fallback dimensions are positive, and chirps derived from the data never ask for a missing line |
| ProcessFrame.DimsAre | internal/fft/processor.go:167-185 | a positive configured size is used unchanged, whatever the other sizes are; the others come from the lengths of the data, or are 128, 256 and 1 |
| ProcessFrame.WindowNames | internal/fft/processor.go:438-462 | which names select which window, in the frame method and in the engine |
| ProcessFrame.PureProfileMeans | internal/fft/processor.go:210-235 | the profile cell of a chirp, a channel and a range bin is the magnitude of that bin of the DFT of its own windowed, cut and zero-padded line |
| ProcessFrame.DoneMatrixMeans | internal/fft/processor.go:237-254 | the matrix cell of a Doppler bin, a channel and a range bin is the magnitude of that bin of the DFT across the chirps |
| ProcessFrame.ProfileDetermined | internal/fft/processor.go:210-235 | two runs on the same frame, such as the engine's and the frame method's, give the same profile |
| ProcessFrame.MatrixDetermined | internal/fft/processor.go:237-254 | and the same matrix |
| ProcessFrame.PictureRow | internal/fft/processor.go:260-264 | row d of the copied picture is Doppler bin d / channels of channel d % channels |
| FrameLaws.PictureTrueExactly | internal/fft/processor.go:256-264 | the picture, shifted or not, shows channel 0 if and only if reading (bin, channel) pairs as bins gives the right values |
| FrameLaws.RowsTrueExactly | internal/fft/processor.go:210-264 | which holds for every frame if and only if there is one channel, one Doppler bin, a slow-time window that lets no chirp through, or a range window that lets no sample through |
| FrameLaws.TwoChannelPicture | internal/fft/processor.go:260-264 | a frame of two channels whose picture shows the second where the first is silent |
| ProcessFrame.FrameResult.Process | internal/fft/processor.go:160-267 | when it panics; every size it works with, configured, derived from the lengths or the default; in a frame that cannot leak each profile cell is the magnitude of the DFT of line ch * chirps + c, windowed and cut at the sample count; each matrix cell is that of the slow-time line; the shift and the copied picture |
| PhaseUnwrap.UnwrapInPlace | internal/fft/fft_go.go:273-289 | terminates for every threshold and leaves the sequential unwrapping of the input |
| PhaseUnwrap.UnwrapCopy | internal/fft/fftwrap/fft2d.c:363-386 | the copying version, which corrects steps between neighbouring inputs |
| PhaseUnwrap.OnlyWholeTurns | internal/fft/fft_go.go:273-289 | each output is its input plus an integer multiple of 2 pi |
| PhaseUnwrap.SmoothExactly | internal/fft/fft_go.go:278-288 | successive outputs differ by at most the threshold on every input if and only if it is at least pi |
| PhaseUnwrap.ShippedThresholdEscapes | configs/gateway.yaml:55 | the configured threshold is too small by that measure |
| PhaseUnwrap.Recovers | internal/fft/fft_go.go:273-289 | at threshold pi any phase with true steps under pi is recovered from its wrapped samples up to one constant |
| PhaseUnwrap.WrapTakesTurns | internal/fft/fftwrap/fft2d.c:370-385 | the correction loops at threshold pi take off the nearest number of whole turns, the one closer to zero on a tie |
| PhaseUnwrap.VersionsAgreeExactly | internal/fft/fftwrap/fft2d.c:370-385 | the Go and C versions agree on an input if and only if each odd half-turn step keeps its sign when the whole turns in the input steps before it are added |
| PhaseUnwrap.VersionsAgreeWithoutOddSteps | internal/fft/fftwrap/fft2d.c:370-385 | in particular whenever no input step is an odd multiple of pi |
| PhaseUnwrap.VersionsDiffer | internal/fft/fftwrap/fft2d.c:370-385 | an input on which they differ |
| GridSums.RingIsDifference | internal/fft/fft_go.go:240-252 | a ring's sum is the outer square's less the guard square's |
| GridSums.RingTransposed | internal/fft/fftwrap/fft2d.c:307-317 | summing the ring range-first or Doppler-first is the same |
| Cfar.RingTotalIs | internal/fft/fft_go.go:240-252 | the accumulated sum is the outer square clipped to the grid less the guard square |
| Cfar.RingCellsAre | internal/fft/fft_go.go:240-252 | the accumulated count is the clipped outer area less (2g+1)^2 |
| Cfar.NoTrainingExactly | internal/fft/fft_go.go:254 | the count is zero if and only if no training cells are asked for or the guard square is the whole grid |
| Cfar.CFARDetect | internal/fft/fft_go.go:223-271 | a cell is reported if and only if it is at least the guard width from every edge, some training cell is on the grid, and it exceeds the threshold times (clipped outer block less guard block) over (clipped area less the guard area); each once, in row-major order, with value and floored ratio |
| Cfar.DetectsWritten | internal/fft/fft_go.go:232-266 | a detection in terms of the buffer alone, with its peak |
| Cfar.LoneTarget | internal/fft/fft_go.go:232-266 | for a non-negative threshold a lone target is reported exactly inside the guard border, if there is anything to compare with, and nothing else is |
| Cfar.CompleteIsUnique | internal/fft/fft_go.go:223-271 | that description determines the list |
| CCfar.CfarDetector | internal/fft/fftwrap/fft2d.c:279-361 | the stored peaks are a permutation, by falling ratio, of the first maxPeaks cells of the scan that clear the border, exceed the threshold over the mean of their ring and top their eight neighbours, each record written out; all of them positions the Go detector reports; nothing happens without the magnitude buffer |
| CCfar.HitWritten | internal/fft/fftwrap/fft2d.c:299-332 | a hit in terms of the magnitudes alone: border, ratio to the mean of the ring, eight neighbours |
| CCfar.HitIsDetection | internal/fft/fftwrap/fft2d.c:299-332 | whatever the threshold, every position the C detector hits is among the Go detector's |
| CCfar.SameRing | internal/fft/fftwrap/fft2d.c:304-319 | away from the border both detectors average the same ring |
| CCfar.IsLocalMax | internal/fft/fftwrap/fft2d.c:322-332 | the early-exit loops decide whether the cell is strictly above its eight neighbours |
| CCfar.SortBySnr | internal/fft/fftwrap/fft2d.c:350-358 | the exchange sort orders the stored peaks and keeps them all |
| Coherence.CoherenceMask.Apply | internal/fft/robust.go:41-116 | every cell is the sanitised input, times 0.05 in incoherent columns; count and average are those of the column scores |
| Coherence.ColumnsAreIndependent | internal/fft/robust.go:67-110 | an output column depends on its own input column alone, though columns are masked in place one after the other |
| Coherence.MaskedCellNonNegative | internal/fft/robust.go:46-51 | no cell is negative or above its sanitised input |
| Coherence.ResultantLength | internal/fft/robust.go:124-135 | by Cauchy-Schwarz the resultant of m unit vectors is no longer than m |
| Coherence.PhaseCoherenceIs | internal/fft/robust.go:118-142 | so the coherence is in [0, 1] before clamping |
| Coherence.ConstantSlopeScoresOne | internal/fft/robust.go:118-142 | a phase that advances by one wrapped step throughout scores exactly 1 |
| Coherence.StabilityOneExactly | internal/fft/robust.go:144-174 | amplitude stability is in (0, 1] and 1 if and only if all amplitudes are equal |
| Coherence.MeanScoreRange | internal/fft/robust.go:111-115 | the reported average lies between the threshold and 1 whenever a column is left alone |
| CoherenceLaws.CoherenceIs | internal/fft/robust.go:118-142 | phase coherence is the length of the mean unit vector over the wrapped steps, 0 for fewer than three phases |
| CoherenceLaws.StabilityIs | internal/fft/robust.go:144-176 | amplitude stability is one over one plus the squared coefficient of variation, 0 for a dark column |
| CoherenceLaws.ProfilesAre | internal/fft/robust.go:65-82 | the two profiles of a column in terms of matrix and spectrum, bad values replaced by 0 |
| CoherenceLaws.ScoreIs | internal/fft/robust.go:82-91 | the score is the weighted sum of the two, cut to [0, 1] |
| CoherenceLaws.MaskLeaves | internal/fft/robust.go:46-109 | every cell of the output: the input, 0 for a bad one, a twentieth where an enabled mask scores its column below the threshold |
| CoherenceLaws.CountIs | internal/fft/robust.go:92-106 | the count is the number of columns below the threshold |
| CoherenceLaws.MeanScoreIs | internal/fft/robust.go:104-115 | the average is the sum of the scores of the kept columns over their number |
| PictureMask.CanMaskExactly | internal/fft/robust.go:67-110 | on a matrix of magnitudes with its own picture as spectrum some column can be masked if and only if there are fewer than three Doppler bins or the threshold exceeds the phase weight, cut to 1 |
| PictureMask.CoherentPicture | internal/fft/processor.go:260-264 | every column of such a picture has phase coherence 1 from three Doppler bins on |
| PictureMask.ShippedMaskIdle | configs/gateway.yaml:31-34 | with the shipped settings no column of any frame's picture is masked |
| Multipath.MultipathSuppressor.Apply | internal/fft/robust.go:492-538 | the in-place filter leaves in front exactly the surviving peaks; disabled or short lists are untouched |
| Multipath.FilteredIsSubsequence | internal/fft/robust.go:531-537 | survivors keep their order |
| Multipath.FilteredHasNoPair | internal/fft/robust.go:507-529 | no harmonic pair that would be struck out remains, for any order tried |
| Multipath.EveryRejectHasAKiller | internal/fft/robust.go:518-527 | every rejected peak had a harmonic partner far stronger than itself |
| Multipath.UnchangedExactly | internal/fft/robust.go:507-529 | a list is left alone if and only if it has no such pair |
| Multipath.Idempotent | internal/fft/robust.go:492-538 | filtering twice is filtering once |
| Multipath.StrongestIsKept | internal/fft/robust.go:518-527 | for depth at most 1 every strongest peak survives, and every rejected peak is weaker than depth times it |
| Multipath.KeepsAStrongestExactly | internal/fft/robust.go:482-490 | some strongest peak survives on every input if and only if the depth is at most 1 |
| Multipath.KillsExactly | internal/fft/robust.go:514-530 | striking out in integers: 20 times the distance from the exact multiple is below 3 times the range, and the ratio is below depth times the partner's |
| Multipath.SweepExactly | internal/fft/robust.go:506-534 | in a sweep a peak stays if and only if no peak that is itself still there at its turn strikes it out |
| Multipath.StruckPeaksDoNotStrike | internal/fft/robust.go:508-510 | three harmonics of which the second goes, and with it what would have struck the third |
| SubPixel.DLSSubPixelSolver.Solve | internal/fft/robust.go:213-238 | the first method that gives a finite position wins; the position is on the integer bin, or within 2.0001, 1 or half a bin of it on each axis, as the method has it |
| SubPixel.DLSSubPixelSolver.TryDamped | internal/fft/robust.go:241-320 | the loop computes the damped iteration, whose rounds, damping and result the following rows give |
| SubPixelLaws.OutcomeIs | internal/fft/robust.go:250-320 | on the border the integer bin, not converged; otherwise all rounds are used, or some round settles or gives up, each with its position, offsets and count of rounds |
| SubPixelLaws.DampingHalves | internal/fft/robust.go:273-278 | while every condition number met is below a hundredth of the limit, the damping at round n is the configured one over 2^n, at least 1e-12 |
| SubPixelLaws.DampingGrows | internal/fft/robust.go:273-274 | while every one is above the limit it is the configured one times 10^n |
| SubPixelLaws.DampingStays | internal/fft/robust.go:273-278 | while every one is in between it is the configured one |
| SubPixelLaws.AbandonsExactly | internal/fft/robust.go:268-289 | a round gives up if and only if a difference exceeds 1e100 or the damped determinant is below 1e-12 |
| SubPixelLaws.DampedNearNewton | internal/fft/robust.go:280-290 | a damped step differs from the undamped Newton step by at most damping over least stretch times its own length |
| SubPixelLaws.FirstStep | internal/fft/robust.go:252-300 | with a well-conditioned Hessian the first round uses half the configured damping and is that close to Newton's step |
| SubPixelLaws.OffGridNeverSettles | internal/fft/robust.go:259-303 | slopes are taken at cells, so on a quadratic surface that is steep at every cell near the peak no round settles |
| SubPixelLaws.ShippedSettingsMissTheTop | internal/fft/robust.go:252-320 | with the shipped settings a round peak whose top is a fifth of a bin off ends within 0.001 of the integer bin after 20 rounds, reported as converged |
| SubPixelLaws.RoundIsNearest | internal/fft/robust.go:260-261 | rounding gives a nearest integer, away from zero for halves |
| SubPixel.EveryIterate | internal/fft/robust.go:252-312 | in every round the damping is positive, the position within two bins of the peak, the rounded centre a cell of the grid |
| SubPixel.EveryStepSolves | internal/fft/robust.go:259-290 | every step taken is the one solution of the system at the rounded centre, damped as the condition number says, and settles exactly when it is shorter than 1e-4 |
| SubPixel.DifferencesAreExact | internal/fft/robust.go:322-356 | on a quadratic surface the differences are its exact gradient and Hessian |
| SubPixel.SolutionIsTrue | internal/fft/robust.go:544-555 | solve2x2 returns the unique solution of its system |
| SubPixel.SolvedIsClose | internal/fft/robust.go:213-238 | within 2 + 1e-4 bins per axis, 1 for gaussian_log, 0.5 for parabolic |
| SubPixel.SolvedOnGrid | internal/fft/processor.go:366-373 | the rounded position is always a cell of the grid |
| SubPixel.BalancedPeakStays | internal/fft/robust.go:259-303 | a peak with balanced neighbours settles on its integer bin in one step |
| SubPixel.ParabolaUnreached | internal/fft/robust.go:230-237 | the parabola is never used for bin numbers of ordinary size |
| SubPixel.LogOffsetIsExact | internal/fft/robust.go:389-396 | on log-parabolic peaks the offset is the vertex if that is within one bin, otherwise 0 |
| SubPixel.ParabolicOffsetIsExact | internal/fft/robust.go:444-452 | on parabolic peaks the offset is the vertex, clamped to half a bin |
| SubPixelLaws.FirstFiniteWins | internal/fft/robust.go:217-237 | the damped result wins if it converged to a finite position, then the log-Gaussian one if finite, then the parabola; disabled, the integer bin |
| SubPixelLaws.GaussianFindsVertex | internal/fft/robust.go:358-419 | a peak whose logarithms follow a parabola along both axes is placed at both vertices |
| SubPixelLaws.ParabolaFindsVertex | internal/fft/robust.go:417-473 | so is one whose magnitudes do, by the parabola |
| SubPixelLaws.FallbacksAtTheEdge | internal/fft/robust.go:368-371 | on the outermost cells both fallbacks keep the integer bin |
| DetectPeaks.Detector.DetectPeaks | internal/fft/processor.go:269-378 | end to end: the mask applied column by column to the sanitised matrix with its mean score, complete detections on that, suppression, the solver's position on the same data for each remaining peak; the input matrix is untouched |
| DetectPeaks.DetectionRatio | internal/fft/fft_go.go:256-263 | detections on non-negative data have a non-negative ratio |
| DetectPeaks.StrongestSurvives | internal/fft/processor.go:306-313 | a strongest detection is always among the peaks left |
| Backpressure.BackpressureController.Increment | internal/pipeline/demux.go:59-68 | one more in progress; the gate closes at the high mark |
| Backpressure.BackpressureController.Decrement | internal/pipeline/demux.go:70-80 | one fewer; a closed gate opens at the low mark and wakes the waiters |
| Backpressure.RunKeepsInv | internal/pipeline/demux.go:59-89 | in every run of any number of workers the load is the number between Increment and Decrement, the high mark implies paused, paused implies a load above the low mark, and waiting implies paused |
| Backpressure.NoLostWakeup | internal/pipeline/demux.go:82-89 | a waiting worker always coexists with one whose Decrement is enabled |
| Backpressure.WokenExactly | internal/pipeline/demux.go:76-79 | a waiting worker is woken exactly by a Decrement that brings the load of a closed gate to the low mark |
| Backpressure.NoDeadlock | internal/pipeline/demux.go:153-176 | whenever a worker holds a frame some worker that holds one can step |
| Backpressure.StepDrains | internal/pipeline/demux.go:153-176 | every step but a receive lowers the work left, so waiting ends |
| Backpressure.CanPauseExactly | internal/pipeline/demux.go:103-122 | some run closes the gate if and only if there are at least as many workers as the high mark |
| Pipeline.RunKeepsInv | cmd/gateway/main.go:113-141 | in every run the closed channels, cancelled contexts and exited pools are those main's position implies |
| Pipeline.NoSendOnClosed | cmd/gateway/main.go:123-139 | no worker ever sends on a closed channel, batchCh included, and no channel is closed twice, with or without storage |
| Pipeline.RunConserves | internal/framer/framer.go:106-152 | every received item is in exactly one channel, worker's hand or outcome; what the storage keeps of it is in the following rows |
| Pipeline.NothingInHand | cmd/gateway/main.go:123-143 | at the end each item was dropped, failed, delivered or left in a channel |
| PipelineHistory.AcceptedReachesWriter | internal/tsdb/storage.go:166-187 | in every state of every run the accepted items are those the writer took followed by its queue, and those it took are those it flushed followed by its batch, all in order; the queue never exceeds twice the batch size, nor the batch its size |
| PipelineHistory.ChannelsAreFifo | cmd/gateway/main.go:60-63 | what a stage sent is what the next one received followed by what the channel holds, in order, never more than its capacity |
| PipelineHistory.ChoicesExactly | internal/pipeline/demux.go:156-216 | what an idle, storing or holding worker can do next, from its hand, the queues and main's position |
| PipelineHistory.LostForCause | internal/tsdb/storage.go:261-271 | an offer is refused only by a full queue, never by the cancelled storage; an item is dropped only by a full channel or a stage that was told to stop |
| PipelineHistory.DemuxOffersFirst | internal/pipeline/demux.go:203-214 | what the demux passes on was offered to the storage before |
| PipelineHistory.StorageIsBatchWriter | internal/tsdb/storage.go:161-252 | the pipeline's storage is a run of the batching writer, whatever the database answers, with the same queue, batch and accepted items |
| PipelineHistory.WriterRuns | internal/tsdb/storage.go:161-170 | the writer runs until the storage is told to stop, and never if it did not come up |
| PipelineHistory.NothingTakenWithoutStorage | cmd/gateway/main.go:76-79 | with a storage that did not come up, accepted items stay in its queue for good |
| PipelineHistory.LeftBehindExactly | internal/tsdb/storage.go:165-168 | some way the shutdown can end leaves accepted items in the queue if and only if it is not empty when main stops the storage |
| PipelineHistory.PacketIsStoredTwice | internal/pipeline/demux.go:203-207 | a packet that reaches the idle gateway can be carried to the sink, and is then queued for the database twice, by demux and sink |
| Pipeline.StepLowersMeasure | internal/fft/processor.go:107-158 | once shutdown has begun every step but a flush tick lowers a measure over undrained items, worker positions and the gate |
| Pipeline.ShutdownIsBounded | cmd/gateway/main.go:123-141 | so the number of remaining steps is bounded, whatever the interleaving |
| Pipeline.ShutdownNeverStuck | internal/pipeline/demux.go:375-377 | until main is done some goroutine can take such a step, even with workers waiting at the gate |
| Pipeline.StuckMeansDone | cmd/gateway/main.go:123-141 | a run that cannot go on has ended with main done, all workers exited and the writer gone |
| Pipeline.ShutdownCompletes | cmd/gateway/main.go:123-141 | from every state after the signal the shutdown can be played to its end |
| BatchWriter.RunKeepsInv | internal/tsdb/storage.go:162-186 | accepted is flushed, then batched, then queued, as sequences; the batch is below its size after each event |
| BatchWriter.Conservation | internal/tsdb/storage.go:194-252 | accepted = written + missing + failed + queued + batched on every prefix, against any database |
| BatchWriter.AcceptanceOrder | internal/tsdb/storage.go:162-252 | measurements leave the batch in acceptance order, each enqueue once |
| BatchWriter.BalanceExactly | internal/tsdb/storage.go:234-246 | against a database that never over-reports, accepted = written + failed + queued + batched at a point of a run if and only if every copy up to there was full |
| BatchWriter.BalanceThroughoutExactly | internal/tsdb/storage.go:234-246 | against any database that holds on every prefix if and only if every copy was full |
| BatchWriter.CopyFallsShort | internal/tsdb/storage.go:234-246 | a run with an accepted measurement in no counter |
| BatchWriter.Storage.WriteMeasurement | internal/tsdb/storage.go:254-272 | accepts, rejects or aborts, with the reference count raised, the queue extended and the counters changed exactly as that says |
| BatchWriter.Storage.TakeOne | internal/tsdb/storage.go:172-184 | one measurement moves to the batch, which is flushed when and only when full; no payload changes |
| BatchWriter.Storage.FlushBatch | internal/tsdb/storage.go:194-252 | every column of every row sent, what becomes of each measurement, and every counter; references are released once per occurrence, never the last, and not at all without a connection |
| BatchWriter.FlushedIs | internal/tsdb/storage.go:225-251 | a flush empties the batch into the account: who was not sent, failed or was copied, and every counter |
| BatchWriter.LevelMeasurement.Unref | pkg/model/model.go:183-187 | the payload is cleared exactly when the count reaches zero |
| BitFields.UnpackPacked | internal/framer/framer.go:212-274 | reading fields undoes an LSB-first packer for every sample that fits the width |
| BitFields.FieldOfTail | internal/framer/framer.go:186-190 | a field of the tail is the field at that distance in the whole |
| Framer.Extract12BitSamples | internal/framer/framer.go:212-236 | sample i is the sign-extended field at bit 12 i; writes as many as fit and reads nothing past the end |
| Framer.Extract14BitSamples | internal/framer/framer.go:238-267 | sample i is the sign-extended field at bit 14 i, over two or three bytes |
| Framer.Extract16BitSamples | internal/framer/framer.go:269-274 | sample i is the sign-extended field at bit 16 i |
| Framer.MaskAndExtend | internal/framer/framer.go:228-231 | masking and filling the upper bits reads the field as signed |
| Framer.Framer.ParseFrame | internal/framer/framer.go:154-201 | the verdict of the checks in order; on success the frame number, the header and every channel's row, otherwise nothing changes |
| FramerLaws.VerdictExactly | internal/framer/framer.go:155-170 | a datagram is accepted if and only if it holds the header, the header has at least 8 bytes and starts with 52 44 41 52, and all sample bits, rounded down to bytes, follow; each error in terms of the bytes |
| FramerLaws.OffsetWritten | internal/framer/framer.go:184-187 | where a channel starts |
| FramerLaws.WrittenIsMost | internal/framer/framer.go:214-239 | as many samples as asked for, or as many as the data holds in full |
| FramerLaws.SampleRange | internal/framer/framer.go:229-264 | samples are signed numbers of 12, 14 or 16 bits, and those are all the numbers that can be packed |
| FramerLaws.Sample12Is | internal/framer/framer.go:212-236 | pairs of 12-bit samples from three bytes |
| FramerLaws.Sample14Is | internal/framer/framer.go:238-267 | 14-bit samples by fours from seven bytes |
| FramerLaws.Sample16Is | internal/framer/framer.go:269-274 | 16-bit samples are signed byte pairs, low byte first |
| FramerLaws.WidthIs | internal/framer/framer.go:189-198 | widths other than 12 and 14 are read as 16; unset sizes of the pool become 128 and 256 |
| Framer.ExactLayoutExactly | internal/framer/framer.go:165-186 | channel offsets are exact and a smallest frame is read completely if and only if a channel is a whole number of bytes |
| Framer.ChannelIsExact | internal/framer/framer.go:182-198 | then sample i of channel ch is sample ch * n + i of the payload, and all are written |
| Framer.PooledRowsFitExactly | pkg/pool/pool.go:55-66 | every accepted frame fits the pool's rows if and only if none is accepted, there is no channel, or channels are at most one chirp and no more than rows |
| Framer.FitsPoolIsFitsRows | pkg/pool/pool.go:165-174 | a frame fits the pool exactly when the pool's rows meet what ParseFrame asks for |
| ParsedFrames.ParsedLinesExactly | internal/framer/framer.go:185-197 | the range pass reads from the rows what the parser stored there, for all frames, if and only if there is at most one chirp, no channel or no sample |
| ParsedFrames.DatagramToLine | internal/fft/processor.go:210-227 | for one chirp, the sample transformed at position i of channel ch is sample ch * n + i of the datagram's payload |
| Thermal.SubmergedTelescopes | internal/thermal/thermal_deformation.go:348-359 | submerged ring heights add up to the level clamped to the tank |
| Thermal.UniformClosedForm | internal/thermal/thermal_deformation.go:335-411 | equal rings give the closed form: expansion per metre times the clamped level |
| Thermal.SameRingsAreUniform | internal/thermal/thermal_deformation.go:378-400 | rings of one size and temperature expand alike, by area change times axial ratio |
| Thermal.TotalMonotone | internal/thermal/thermal_deformation.go:335-411 | at or above design a higher level or hotter rings never shrink the total, as long as no ring's ratio is reset |
| Thermal.TallRingsUnreset | internal/thermal/thermal_deformation.go:388-398 | rings of at least 0.1 m never have their axial ratio reset by heating |
| Thermal.ResetExactly | internal/thermal/thermal_deformation.go:388-398 | heating resets the ratio if and only if the ring is under 0.1 m and would grow by more than a tenth of its height, or of a centimetre if that is more; the coefficient times the rise then exceeds 0.1 |
| Thermal.NeverShrinksExactly | internal/thermal/thermal_deformation.go:378-400 | a ring never shrinks between design temperature and 150 degrees if and only if its ratio is not reset at 150 |
| Thermal.TotalNeverShrinksExactly | internal/thermal/thermal_deformation.go:335-411 | a wetted tank of equal rings never shrinks when all its sensors read hotter if and only if the same holds |
| Thermal.ThinTankShrinks | internal/thermal/thermal_deformation.go:388-398 | a tank whose total expansion falls when its sensors go from 44 to 145 degrees |
| Thermal.PerMetreBounded | internal/thermal/thermal_deformation.go:378-400 | the clamps bound a ring's expansion per metre at any temperature |
| ThermalLaws.RingTempIs | internal/thermal/thermal_deformation.go:362-376 | a ring is as warm as its readings between -60 and 150 on average, or at the design temperature |
| ThermalLaws.AreaDeltaIs | internal/thermal/thermal_deformation.go:378-387 | the area gained is pi times d (2 radius + d), with the growth d of the radius within 0.05 |
| ThermalLaws.AxialRatioIs | internal/thermal/thermal_deformation.go:388-399 | the axial ratio with its clamp of 0.01, floor and reset |
| ThermalLaws.TotalIs | internal/thermal/thermal_deformation.go:335-411 | the total is the sum over the rings of area gained times axial ratio times submerged height, with the finite filters |
| Thermal.BulkMean | internal/thermal/thermal_deformation.go:99-117 | the ring mean after a bulk update, for every sensor count |
| Thermal.ZeroAtDesignExactly | internal/thermal/thermal_deformation.go:99-117 | after a bulk update at design temperature the total of a wetted tank is zero if and only if the sensor count is 0 or 1 modulo 4 |
| Thermal.EulerBernoulliCorrector.UpdateBulkTemps | internal/thermal/thermal_deformation.go:99-117 | accepted averages overwrite their ring's sensors, all else is kept |
| Thermal.EulerBernoulliCorrector.UpdateWallTemp | internal/thermal/thermal_deformation.go:76-97 | a valid reading in range replaces its sensor's value, everything else is kept or ignored |
| Thermal.EulerBernoulliCorrector.IntegrateVolumeExpansion | internal/thermal/thermal_deformation.go:335-411 | the accumulating loop computes the ring sum, with its finite-value filters |
| Thermal.EulerBernoulliCorrector.HydrostaticPressures | internal/thermal/thermal_deformation.go:201-210 | each ring's pressure is that of the liquid column above its bottom |
| ThermalLaws.PressureWritten | internal/thermal/thermal_deformation.go:156-210 | density, defaulted outside (500, 1500], times 9.80665 times the liquid above the ring's bottom |
| Thermal.EulerBernoulliCorrector.CorrectVolume | internal/thermal/thermal_deformation.go:413-429 | the correction is the total expansion exactly when the corrected volume is between 0 and 1e18, otherwise 0; corrected is raw plus correction |
| Ranging.Calculator.Calculate | internal/ranging/ranging.go:66-215 | the best peak decides the status, branch by branch, and there is none exactly for the two error statuses; the level is tank height less distance, 0 for a distance beyond the tank, never negative; the wave height is four standard deviations of the window when that is finite; a valid measurement, and only one, enters the statistics, which stay the exact folds of all valid ones; peaks on the grid never add a negative distance |
| Ranging.JudgedExactly | internal/ranging/ranging.go:97-131 | each status in terms of the compensated distance, the ratio and the configured bounds |
| Ranging.DistanceIs | internal/ranging/ranging.go:273-302 | metres per bin times the refined position, or times the nearest bin where that is not positive and finite |
| Ranging.BestOrNone | internal/ranging/ranging.go:217-271 | there is a best peak unless none is eligible |
| Ranging.ChoiceStandsExactly | internal/ranging/ranging.go:128-131 | the second range check rejects no chosen peak if and only if compensation is off or the temperature is 20 |
| Ranging.Calculator.UpdateTemperature | internal/ranging/ranging.go:401-405 | accepts temperatures between -60 and 150, which keeps the compensation factor positive |
| Ranging.SelectValidPeak | internal/ranging/ranging.go:217-271 | the first eligible peak of the highest score above -1, if there is one |
| Ranging.ExtremaExactly | internal/ranging/ranging.go:204-209 | over all runs of non-negative distances in the configured range the kept extrema are the true ones if and only if the minimum is positive or the maximum is not |
| Ranging.DefaultedExtremaExactly | cmd/gateway/main.go:247-249 | after main's default for 0 that is: unless the minimum is negative and the maximum positive |
| Ranging.DistanceNonNegative | internal/ranging/ranging.go:273-302 | a peak whose position rounds to a bin of the grid has no negative distance |
| Ranging.Replay | internal/ranging/ranging.go:66-215 | every sequence of such distances is what some run of Calculate measures, with one resolution and one score throughout |
| Ranging.Calculator.FoldMeasurement | internal/ranging/ranging.go:201-212 | mean, extrema and circular buffer after one more valid distance |
| Ranging.HoldsNext | internal/ranging/ranging.go:393-399 | the circular buffer always holds the last hundred valid distances |
| Ranging.Calculator.CalculateWaveHeight | internal/ranging/ranging.go:362-391 | four times the standard deviation of the last hundred valid distances |
| Ranging.WaveHeightIs | internal/ranging/ranging.go:362-391 | mean and wave height of a window from sums over its entries |
| Ranging.WindowIs | internal/ranging/ranging.go:393-399 | the window is the last hundred entries, oldest first |

## Left out

- Floating point: rounding, NaN and infinities; "finite" is the code's own magnitude bound, and a division of 0 by 0 is modelled by its effect on the comparison that follows.
- Integer widths: counters and sizes are unbounded, except for the 16-bit arithmetic of the sample extractors, which is modelled bit for bit.
- Window shapes, Bessel polynomial, metres per bin, bin-to-velocity scaling, peak scores and confidence: straight-line formulas, taken as parameters.
- Condition numbers of the sub-pixel solver and their field in its result: an arbitrary function of the Hessian.
- Cfar.CFARDetect: guard and train cell counts are taken as non-negative; negative ones index outside the matrix.
- ProcessFrame.FrameResult.Process: the frame method repeats the engine's passes in its own body; the model calls the engine's methods with the frame method's window, so that the two bodies are the same loops is read off the source and not proved. Array sizes, which come from the pool, are preconditions.
- Framer.Framer.ParseFrame: rows long enough for what an accepted frame holds, and distinct, are preconditions; the source panics on a shorter row. The extractor's three-byte branch for 12-bit samples is left out because offsets 0 and 4 never reach it.
- Pipeline.NoSendOnClosed: cancelling the UDP listener and closing its sockets are one step; goroutines that only log or serve metrics are left out.
- BatchWriter.Storage.WriteMeasurement: with a batch size of 0 the channel has no buffer and hands over to a writer that is waiting; the model rejects then.
- BatchWriter.Conservation: the database answers arbitrarily; that a cancelled context makes the connection pool refuse is not assumed.
- Coherence.CoherenceMask.Apply: the matrix must hold all cells of the grid; the index check that follows is then always true.
- DetectPeaks.Detector.DetectPeaks: one sequential call; statistics counters, distances and velocities of the peaks, and concurrent use of the shared peak buffer are left out.
- Ranging.Calculator.Calculate: volume, audit and confidence fields are left out; the thermal corrector is an arbitrary function of the level, and locks are left out because each update is one step.
- Thermal.EulerBernoulliCorrector.ComputeDeformation: radial and axial strain, bending and stress per ring are straight-line formulas and not part of this model; sine at multiples of pi/2 is taken as exactly 0, 1, 0, -1.
- UDP sockets, SQL, YAML, logging, metrics, the simulator and the build-tagged glue to the C library are not part of this model.
