# delax DSP core in Dafny

This project models the signal-processing core of *delax*, a stereo
delay/reverb audio plugin, as pure Dafny functions over immutable state
records, and proves properties of that model. Samples are `real`. The trig
functions used for filter coefficients and reverb modulation are parameters
(`tan` is any `real -> real`, `sin` is any function into [-1, 1]).

The modules follow the program's structure:

- `Numeric`: helper definitions shared by the rest.
  - `Option`, `Pi`, `Abs`, silent buffers.
  - `ToUsize`, the saturating floor that a float-to-`usize` cast performs.
- `Ring`: helpers for indexing a ring buffer.
  - `Lag` is "the input `n` samples ago, silence before the start".
  - `EffectiveDelay` is the delay a requested offset actually produces in a ring of `len` slots.
  - The rest are lemmas about Euclidean `%`.
- `DelayEngine` and `DelayEngineFacts`: the delay engine.
  - A ring buffer with independent read and write heads.
  - Each head has a "jump" table that relocates it when it reaches a trigger index.
- `Delax`: the plugin's per-sample loop.
  - Two engines share one delay length.
  - Each engine acts as a feedback comb filter.
  - Also the conversion from milliseconds to samples and the default state.
- `DattorroBlocks` and `Dattorro`: Dattorro's plate reverb.
  - Delay lines addressed with Euclidean remainder.
  - Input and decay all-pass diffusors, the latter with a modulated read offset.
  - A one-pole damper.
  - The fixed figure-of-eight topology and the output tap mix.
- `Simper`: Andrew Simper's trapezoidal state-variable filters, in tangent form and in sine form.
- `LegacyFilters`: the older copies of those two filters.
- `Pipeline`: ordered composition of abstract mono filters over a stereo pair.
- `PeakFollower`: a sliding-window mean followed by an attack/hold/release peak detector.

The function that converts the delay time is named `seconds_to_samples`, but
it divides by 1000, so its argument is in milliseconds. The model follows the
code (`Delax.SecondsToSamples`).

## Model

| member | source | states |
|---|---|---|
| Numeric.ToUsize | src/filters/dattorro.rs:267 | a float cast to an unsigned index is the floor of a non-negative value and 0 for a negative one |
| Ring.EffectiveDelay | src/filters/dattorro.rs:193-197 | a requested offset `d` in a ring of `len` slots lands `r` slots back, where `1 <= r <= len` and `r ≡ d (mod len)`; `r = d` when `1 <= d <= len` |
| DelayEngine.New | src/delay_engine/engine.rs:11-19 | a fresh engine has `size` zero samples, both heads at 0, and both jump lists exactly `[Jump(size, 0)]` |
| DelayEngine.FirstTriggeredUnique | src/delay_engine/engine.rs:61-68 | at most one position in a jump list is the first one triggered by an index |
| DelayEngine.CheckJumps | src/delay_engine/engine.rs:61-68 | the result is `None` exactly when no jump's trigger equals the index; otherwise it is the first such jump in list order |
| DelayEngine.Relocate | src/delay_engine/engine.rs:25-27 | a head moves to the target of the FIRST jump in list order whose trigger equals its index, and stays put when no trigger matches; with the single wrap jump at the index it goes to 0 |
| DelayEngine.Pop | src/delay_engine/engine.rs:21-31 | returns the sample under the read head, leaves the buffer alone, and checks jumps after incrementing the head, so with the wrap jump the head advances modulo the length |
| DelayEngine.Write | src/delay_engine/engine.rs:33-40 | changes only the slot under the write head, checks jumps before incrementing, and so with the wrap jump always leaves the head one further on, possibly at the length |
| DelayEngine.SetDelayAmount | src/delay_engine/engine.rs:47-49 | the write head lands inside the buffer, `d` slots after the read head modulo the length; nothing else changes |
| DelayEngine.SetBufferSize | src/delay_engine/engine.rs:55-59 | the buffer becomes `n` zeros; each head becomes its old value modulo `n` (so it is unchanged if already below `n`); the jump lists are untouched |
| DelayEngine.Apply | src/delay_engine/engine.rs:10-69 | one public call never edits a jump list; it fails exactly where the source would index out of range or take a remainder by zero |
| DelayEngineFacts.RunKeepsJumps | src/delay_engine/engine.rs:10-69 | after any sequence of public calls the jump lists are the ones the engine started with |
| DelayEngineFacts.ReachableJumpsAreInitial | src/delay_engine/engine.rs:14-15 | every state reachable from `new(size)` still has both jump lists equal to `[Jump(size, 0)]` |
| DelayEngineFacts.PopKeepsReadHeadInBounds | src/delay_engine/engine.rs:21-31 | with the wrap jump at the buffer length, a pop keeps the read head inside the buffer |
| DelayEngineFacts.WriteAtLastSlotLeavesHeadAtCapacity | src/delay_engine/engine.rs:33-40 | writing at the last slot leaves the write head equal to the length, and a second write without repositioning is out of bounds |
| DelayEngineFacts.PopKeepsReadBounded | src/delay_engine/engine.rs:21-31 | a read head below a jump's trigger stays below it after a pop |
| DelayEngineFacts.GrowKeepsReadBounded | src/delay_engine/engine.rs:55-59 | resizing to at least the old trigger keeps the read head below the stale trigger, so reads stay in bounds |
| DelayEngineFacts.ShrinkStrandsReadHead | src/delay_engine/engine.rs:55-59 | after shrinking a capacity-10 engine to 5, the stale trigger at 10 is never reached: five pops drive the read head to 5, outside the buffer, and the next pop fails |
| DelayEngineFacts.PopMany | src/delay_engine/engine.rs:21-31 | popping `k` samples yields, in order, the sample `i` slots past the read head (wrapping at the buffer end) for each `i < k`; the read head ends `k` slots on, modulo the length; the buffer and the wrap jumps are kept |
| DelayEngineFacts.WriteMany | src/delay_engine/engine.rs:33-40 | writing a run of samples that fits before the end stores sample `i` at slot `writeHead + i`, keeps every other slot, advances the write head by the run's length and leaves the read head alone |
| DelayEngineFacts.WriteThenPop | src/delay_engine/engine.rs:21-40 | first in, first out: samples written starting at the read head's slot come back, in order, from as many pops |
| DelayEngineFacts.FullBufferWraps | src/delay_engine/engine.rs:21-40 | filling a whole buffer from slot 0 and popping once more than its capacity returns the samples and then the first one again |
| DelayEngineFacts.CapacityFiveInOut | src/delay_engine/engine.rs:87-102 | writing 1..5 into a capacity-5 engine and popping six times yields 1, 2, 3, 4, 5, 1 |
| DelayEngineFacts.CapacityFiveWriteHead | src/delay_engine/engine.rs:87-102 | after writing 1..5 into a capacity-5 engine the write head is at 5, the capacity |
| DelayEngineFacts.FreshEnginePopsSilence | src/delay_engine/engine.rs:79-84 | a fresh 44100-slot engine first pops 0 and holds 44100 samples |
| Delax.SecondsToSamples | src/lib.rs:178-180 | the result is the floor of `ms/1000 * sampleRate`, or 0 when that product is negative |
| Delax.SecondsToSamplesOfZero | src/lib.rs:178-180 | 0 ms is 0 samples |
| Delax.SecondsToSamplesMonotone | src/lib.rs:178-180 | for a non-negative sample rate, a longer time never gives fewer samples |
| Delax.ChannelStep | src/lib.rs:132-148 | one channel's sample: the output is the input plus feedback times the sample under the read head; that output is written `d` slots ahead of the read head, in bounds; the read head advances modulo the length and the write head ends just past the written slot |
| Delax.Default | src/lib.rs:22-35 | the default plugin has two silent 44100-sample engines with read heads at 0 and write heads at 500 and 400 |
| Delax.Process | src/lib.rs:129-149 | each output is that channel's input plus its feedback gain times its engine's popped sample; in each engine that output is written `d` slots ahead of the old read head (`d` the shared delay in samples), the read head advances by one modulo the length, the write head ends just past the written slot, the jump lists are kept, and the engines stay well formed |
| Delax.ChannelsIndependent | src/lib.rs:132-148 | the left output and left engine do not depend on the right input, right feedback or right engine |
| Delax.CombStep | src/lib.rs:129-149 | one sample keeps the comb-filter state and returns the input plus feedback times the output `D` samples earlier |
| Delax.CombWindowShift | src/lib.rs:144-148 | writing output `t` at slot `(t + d) mod len` keeps the last `len` outputs at their slots |
| Delax.CombAdvance | src/lib.rs:129-149 | one more sample keeps both the channel state and the comb recurrence |
| Delax.CombLawExtend | src/lib.rs:144-148 | appending a sample that obeys the comb recurrence keeps the recurrence for the whole history |
| Delax.RunComb | src/lib.rs:129-149 | driven with a constant delay `d` from a fresh engine, output `t` is input `t` plus feedback times output `t - D` (silence before time 0), with `D = d` for `1 <= d <= len` and `D = len` for `d = 0` |
| Delax.NewIsCombStart | src/delay_engine/engine.rs:11-19 | a fresh engine is a valid starting state for the comb recurrence |
| DattorroBlocks.NewLine | src/filters/dattorro.rs:164-170 | a new line is silent, has delay equal to its length and write index 0, and is usable exactly when its length is positive |
| DattorroBlocks.SetDelay | src/filters/dattorro.rs:172-174 | only the delay changes |
| DattorroBlocks.Slot | src/filters/dattorro.rs:187-197 | the slot read `d` back from the write index is in range and congruent to `writeIndex - d`, and equals it when `d <= writeIndex` |
| DattorroBlocks.SlotOfMultiple | src/filters/dattorro.rs:193-197 | an offset that is a multiple of the length reads the slot about to be overwritten |
| DattorroBlocks.Insert | src/filters/dattorro.rs:199-202 | writes only the slot under the write index and advances the index modulo the length, keeping it in range |
| DattorroBlocks.Process | src/filters/dattorro.rs:176-185 | reads the slot `delay` back before inserting the input |
| DattorroBlocks.SilentLineStart | src/filters/dattorro.rs:164-170 | a fresh line holds a silent history |
| DattorroBlocks.SlotAtTime | src/filters/dattorro.rs:176-185 | after `t` writes, reading `delay` back reads the slot written at time `t - D` |
| DattorroBlocks.LineStep | src/filters/dattorro.rs:176-185 | one step returns the input from `D` steps earlier (silence before the start) and keeps the line holding the last `len` inputs |
| DattorroBlocks.Stream | src/filters/dattorro.rs:176-185 | processing a block gives one output per input |
| DattorroBlocks.StreamIsDelay | src/filters/dattorro.rs:176-185 | over any block, output `t` is the input `D` steps earlier, where `D` is the effective delay |
| DattorroBlocks.SilentLineDelays | src/filters/dattorro.rs:176-185 | a fresh line with delay `d` in `1..len` returns the input from `d` calls earlier, or 0 before that |
| DattorroBlocks.ZeroDelayIsFullLength | src/filters/dattorro.rs:43-44 | a delay of 0, as used for the pre-delay, behaves as a delay of the full length |
| DattorroBlocks.LineTestVector | src/filters/dattorro.rs:311-322 | a length-4 line with delay 2 maps 1..8 to 0, 0, 1, 2, 3, 4, 5, 6 |
| DattorroBlocks.SilentReads | src/filters/dattorro.rs:187-197 | a silent line reads 0 at every offset |
| DattorroBlocks.InsertSilence | src/filters/dattorro.rs:199-202 | writing 0 into a silent line keeps it silent |
| DattorroBlocks.ProcessSilent | src/filters/dattorro.rs:176-185 | silence in a silent line gives silence out and keeps it silent |
| DattorroBlocks.GetWithDelayAliases | src/filters/dattorro.rs:193-197 | offsets `d` and `d + len` read the same slot |
| DattorroBlocks.CloseOffsetsDistinct | src/filters/dattorro.rs:193-197 | two offsets less than a length apart read different slots |
| DattorroBlocks.NewInputDiffusor | src/filters/dattorro.rs:213-218 | the diffusor's line is a new line of the given length and its gain is the given gain |
| DattorroBlocks.DiffuseInput | src/filters/dattorro.rs:220-227 | returns `g*x + (1 - g²)*delayed` (the all-pass form), where `delayed` is the full-length read, and the new state is the old line with `x - g*delayed` inserted and the same gain |
| DattorroBlocks.DiffuseStream | src/filters/dattorro.rs:220-227 | a block gives one output per input |
| DattorroBlocks.AllPassStored | src/filters/dattorro.rs:220-227 | the reference sequence of stored samples has one entry per input after the history and starts with that history |
| DattorroBlocks.AllPassStoredRecurrence | src/filters/dattorro.rs:222-223 | the stored samples satisfy `s[t] = x[t] - g*s[t - D]` for a delay of at least one sample |
| DattorroBlocks.AllPassOutputsClosed | src/filters/dattorro.rs:220-227 | the reference outputs are `y[t] = g*x[t] + (1 - g²)*s[t - D]` over the stored samples |
| DattorroBlocks.DiffuseInputAt | src/filters/dattorro.rs:220-227 | given the delayed sample `a`, one call outputs `g*x + (1 - g²)*a` and inserts `x - g*a` |
| DattorroBlocks.DiffuseStep | src/filters/dattorro.rs:220-227 | on a line holding a stored history, the delayed sample is the one stored `D` steps earlier, and the line then holds the history plus the newly stored sample |
| DattorroBlocks.DiffuseStreamMatches | src/filters/dattorro.rs:220-227 | over any block, a diffusor whose line holds a stored history produces exactly the reference all-pass outputs for its gain and effective delay |
| DattorroBlocks.SilentDiffusorIsAllPass | src/filters/dattorro.rs:213-227 | a silent diffusor produces the reference all-pass outputs from an empty history |
| DattorroBlocks.AllPassLaw | src/filters/dattorro.rs:220-227 | the all-pass stage as difference equations: `y[t] = g*x[t] + (1 - g²)*s[t - D]` with `s[t] = x[t] - g*s[t - D]` |
| DattorroBlocks.InputDiffusorTestVector | src/filters/dattorro.rs:325-332 | gain 0.5 and delay 2 map 1, 2, 3 to 0.5, 1, 2.25 exactly |
| DattorroBlocks.HalfGainDiffusorVector | src/filters/dattorro.rs:325-332 | any silent diffusor with gain 0.5 and effective delay 2 maps 1, 2, 3 to 0.5, 1, 2.25 |
| DattorroBlocks.AllPassTestVector | src/filters/dattorro.rs:325-332 | the reference all-pass difference equations with gain 0.5 and delay 2 map 1, 2, 3 to 0.5, 1, 2.25 |
| DattorroBlocks.DiffuseInputSilent | src/filters/dattorro.rs:220-227 | silence in a silent diffusor gives silence out and keeps it silent |
| DattorroBlocks.Tap | src/filters/dattorro.rs:229-231 | while the delay is a multiple of the length, the tap is the value the next read will return |
| DattorroBlocks.NewDecayDiffusor | src/filters/dattorro.rs:248-259 | the line is `delay + 16` long; excursion depth 8, rate 1, phase and excursion 0 |
| DattorroBlocks.NextExcursion | src/filters/dattorro.rs:276-279 | the excursion stays within plus or minus its depth |
| DattorroBlocks.ReadOffset | src/filters/dattorro.rs:265-267 | the read offset is the delay plus the excursion rounded down when the excursion is non-negative, equals the delay for a negative excursion (the cast saturates), and so lies within [delay, delay + 8] for an excursion in [-8, 8] |
| DattorroBlocks.DecayReadOffset | src/filters/dattorro.rs:261-273 | the modulated offset lies in `[delay, delay + 8]`, below the line length |
| DattorroBlocks.DecayNext | src/filters/dattorro.rs:261-270 | the next state stores `x + g*delayed` read at the modulated offset, advances the modulation by one tick, changes nothing else, and stays usable |
| DattorroBlocks.DecayOutput | src/filters/dattorro.rs:272 | `delayed - g*(x + g*delayed)` equals `(1 - g²)*delayed - g*x`, the all-pass form with the input diffusor's signs flipped |
| DattorroBlocks.DiffuseDecay | src/filters/dattorro.rs:261-273 | outputs `(1 - g²)*delayed - g*x` for the delayed sample at the modulated offset, and moves to the state described for `DecayNext` |
| DattorroBlocks.DiffuseDecaySilent | src/filters/dattorro.rs:261-273 | silence in a silent decay diffusor gives silence out and keeps it silent, whatever the modulation |
| DattorroBlocks.SetDecaySampleRate | src/filters/dattorro.rs:281-283 | only the sample rate changes |
| DattorroBlocks.NewDamper | src/filters/dattorro.rs:293-298 | a new damper remembers 0 and has the given damping |
| DattorroBlocks.Damp | src/filters/dattorro.rs:300-304 | the output is `x*(1 - damping) + last*damping` and is stored as the memory; for damping in [0, 1] it lies between the input and the previous output |
| DattorroBlocks.DampBounded | src/filters/dattorro.rs:300-304 | for damping in [0, 1], inputs and memory bounded by `M` give an output bounded by `M` |
| Dattorro.NewReverb | src/filters/dattorro.rs:42-73 | a new reverb is silent, with the given decay and gain 1, a pre-delay one second long with delay 0, and all six tap lines silent and a quarter second long; it is usable exactly when the sample rate is at least 4 |
| Dattorro.LeftTapMix | src/filters/dattorro.rs:120-125 | silent taps contribute nothing to the left output |
| Dattorro.RightTapMix | src/filters/dattorro.rs:126-131 | silent taps contribute nothing to the right output |
| Dattorro.Output | src/filters/dattorro.rs:119-135 | with silent taps, each output is its initial tap times `2*gain`; the state is not changed |
| Dattorro.CrossCouple | src/filters/dattorro.rs:86-87 | the left accumulator takes the signal plus the decayed right one; the right accumulator then uses the updated left one |
| Dattorro.CrossCoupleIsSequential | src/filters/dattorro.rs:86-87 | the right accumulator's update reads the already-updated left accumulator |
| Dattorro.FrontEnd | src/filters/dattorro.rs:76-84 | the channel average goes through the pre-delay, then the bandwidth damper, then the four input all-passes in order; each of those six blocks takes the state its step gives and the signal is the fourth all-pass's output; nothing else changes; silent input into a silent reverb gives 0 |
| Dattorro.HalfStep | src/filters/dattorro.rs:95-114 | one side of the tank: first delay line, its output into tap 1, the damper, the damped value times the decay into the all-pass, the all-pass's oldest sample into tap 2 and its output into tap 3, then the second delay line, whose output is the next accumulator; every line stays valid and silence maps to silence |
| Dattorro.Tank | src/filters/dattorro.rs:86-116 | the cross-coupled accumulators go through the decay diffusors; each half then steps from that value, giving the new accumulator and lines; the decay diffusors take the state their step gives; the output is the mix of those initial values with the taps AFTER this sample's inserts; every line stays usable and the decay, gain, pre-delay, bandwidth damper and four input diffusors are untouched |
| Dattorro.TankSilent | src/filters/dattorro.rs:86-135 | a silent tank fed silence outputs (0, 0) and stays silent |
| Dattorro.ProcessStereo | src/filters/dattorro.rs:75-117 | a stereo step keeps every line usable and leaves decay, gain and the pre-delay setting unchanged |
| Dattorro.SilenceInvariant | src/filters/dattorro.rs:75-135 | from a silent state, silence in gives (0, 0) out and the state stays silent |
| Dattorro.OnlyTheSumMatters | src/filters/dattorro.rs:76 | the reverb sees only `(l + r)/2`: inputs with the same sum give the same output and state |
| Dattorro.SetDecay | src/filters/dattorro.rs:137-139 | only the decay changes |
| Dattorro.SetSampleRate | src/filters/dattorro.rs:143-153 | rebuilds the pre-delay one second long and all six tap lines as silent quarter-second lines, sets the decay diffusors' rate, and changes nothing else; the result is usable exactly when the rate is at least 4 |
| Dattorro.RateChangeTapsAsNew | src/filters/dattorro.rs:143-153 | after a rate change the six tap lines are exactly those a reverb built at that rate starts with |
| Dattorro.PreDelayRebuildSameDelay | src/filters/dattorro.rs:43-44 | the constructor's pre-delay (delay set to 0) and the rebuilt one (delay equal to the length) give the same effective delay |
| Dattorro.DeepestTapsDistinct | src/filters/dattorro.rs:126 | the right output's two reads of the first left tap (offsets 353 and 3627) hit different slots when the tap is longer than 3627 |
| Dattorro.DeepestTapAliases | src/filters/dattorro.rs:126 | when the tap is at most 3627 long, offset 3627 reads the same slot as offset `3627 - len` |
| Simper.Responses | src/filters/simper.rs:116-118 | low and band are the two integrator values and `low + k*band + high` is the input |
| Simper.Integrate | src/filters/simper.rs:113-114 | the trapezoidal state update: new state plus old state is twice the node value |
| Simper.SelectMeaning | src/filters/simper.rs:139-162 | the notch output is `x - k*band` and the peak output is `2*low - x + k*band` |
| Simper.DenominatorAtLeastOne | src/filters/simper.rs:84 | for non-negative damping, the denominator of `a1` is at least 1 |
| Simper.TanA1 | src/filters/simper.rs:84 | `a1` is the reciprocal of `1 + g*(g*k)` |
| Simper.TanNew | src/filters/simper.rs:30-57 | cutoff 1000 Hz, resonance 0.2, zero state, low-pass mode; `g` is the tangent of the normalised cutoff, `k = 2 - 2*res`, and `a2 = g*a1` |
| Simper.TanReinit | src/filters/simper.rs:79-86 | recomputes `g`, `k` and `a1`, and scales the old `a2` by the new `g` instead of recomputing it; nothing else changes |
| Simper.TanSetCutoff | src/filters/simper.rs:60-63 | only the cutoff and coefficients change: `g` is the tangent of the new normalised cutoff, `k = 2 - 2*res`, `a1 = 1/(1 + g*(g*k))`, and `a2` is the old `a2` times the new `g`; the state and mode are kept |
| Simper.TanSetSampleRate | src/filters/simper.rs:66-69 | only the sample rate and coefficients change, with `g`, `k` and `a1` recomputed for the new rate and `a2` scaled by the new `g` |
| Simper.TanSetRes | src/filters/simper.rs:72-75 | only the resonance and coefficients change, with `g`, `k` and `a1` recomputed for the new resonance and `a2` scaled by the new `g` |
| Simper.TanTickFull | src/filters/simper.rs:109-121 | `v1 = a1*ic1 + a2*(x - ic2)`, `v2 = ic2 + g*v1`, state update `ic' = 2v - ic`, and the outputs satisfy `low + k*band + high = x` |
| Simper.TanTickAllpass | src/filters/simper.rs:133-136 | the all-pass output is `x - 2k*band`, with the same state update |
| Simper.TanTick | src/filters/simper.rs:139-162 | returns low, band, high, notch or peak of one full tick by mode; the new state does not depend on the mode |
| Simper.TanSilence | src/filters/simper.rs:109-121 | zero state and zero input give zero outputs and keep the state |
| Simper.TanReinitBreaksA2 | src/filters/simper.rs:40-86 | re-setting the constructor's own cutoff leaves `a2 != g*a1` unless `g` is 0 or 1: `reinit` does not restore the constructor's relation |
| Simper.TanApply | src/filters/simper.rs:60-162 | no public call changes the mode; a call fails exactly when it would set a zero sample rate or a resonance outside [0, 1] |
| Simper.TanApplyKeepsCoefficients | src/filters/simper.rs:60-162 | every successful call leaves `g`, `k` and `a1` consistent with the cutoff, rate and resonance it stores (`a2` is not recomputed, see `Simper.TanReinitBreaksA2`) |
| Simper.TanStateOnly | src/filters/simper.rs:109-136 | a tick changes only the integrator states, so consistent coefficients stay consistent |
| Simper.TanRunKeepsCoefficients | src/filters/simper.rs:20-162 | the tangent form has no mode setter, so every reachable state is in low-pass mode with `k = 2 - 2*res` |
| Simper.SinGains | src/filters/simper.rs:260-267 | with `N = 2 + k*sin(2w)`, the gains are `g0 = sin(2w)/N` and `g2 = 2*sin(w)²/N`, and `g1 = -g2 - k*g0` |
| Simper.GainsFromDetermines | src/filters/simper.rs:263-267 | the gain condition pins both gains to the quotients by the normaliser, so gains computed for other parameters fail it |
| Simper.SinDamping | src/filters/simper.rs:258 | for resonance in [0, 1], the damping `2 - 1.45*res` lies in [0.55, 2] |
| Simper.SinNew | src/filters/simper.rs:194-227 | cutoff 500 Hz, resonance 0.2, damping 1.6 (`2 - 2*res`), zero state, low-pass mode, and gains equal to those of the stored cutoff, rate and damping, related as above |
| Simper.SinReinit | src/filters/simper.rs:253-268 | recomputes the damping as `2 - 1.45*res` and the gains for the stored cutoff and rate (keeping the relation); nothing else changes |
| Simper.SinSetCutoff | src/filters/simper.rs:230-233 | only the cutoff and coefficients change, and the gains are those of the new cutoff |
| Simper.SinSetSampleRate | src/filters/simper.rs:236-239 | only the sample rate and coefficients change, and the gains are those of the new rate |
| Simper.SinSetRes | src/filters/simper.rs:242-245 | only the resonance and coefficients change, and the damping and gains are those of the new resonance |
| Simper.SinSetMode | src/filters/simper.rs:247-249 | only the mode changes |
| Simper.SinSetSameResChangesDamping | src/filters/simper.rs:204-258 | setting the constructor's own resonance 0.2 again moves the damping from 1.6 to 1.71 |
| Simper.SinTickFull | src/filters/simper.rs:289-303 | band and low are the gain-weighted node values, the state update is `ic' = 2v - ic` (the same rule as the tangent form), and `low + k*band + high = x` |
| Simper.SinTick | src/filters/simper.rs:306-329 | returns low, band, high, notch or peak by mode; the new state does not depend on the mode |
| Simper.SinSilence | src/filters/simper.rs:289-303 | zero state and zero input give zero outputs and keep the state |
| Simper.SinModeOnlySelects | src/filters/simper.rs:306-329 | two filters differing only in mode reach states that differ only in mode |
| Simper.SinApply | src/filters/simper.rs:230-249 | each public call keeps the gains equal to those of the stored cutoff, rate and damping, and fails only where a coefficient would divide by zero |
| Simper.SinRunKeepsGainRelation | src/filters/simper.rs:194-268 | `g1 = -g2 - k*g0` in every state reachable from the constructor |
| Simper.SinRunKeeps | src/filters/simper.rs:230-268 | every call sequence keeps the gains equal to those of the stored parameters, and so keeps the gain relation |
| LegacyFilters.LegacyTanNew | src/filters.rs:19-48 | cutoff 500 Hz, `q` 0.5, resonance 0.9, `k = 2 - 2*0.9`, zero state, and `a2 = g*a1` |
| LegacyFilters.LegacyTanReinit | src/filters.rs:60-65 | recomputes `g` and `a1`, scales `a2` by the new `g`, and keeps `k` |
| LegacyFilters.LegacyTanSetCutoff | src/filters.rs:50-65 | only the cutoff and coefficients change: `g` is the tangent of the new normalised cutoff, `a1 = 1/(1 + g*(g*k))` with the kept `k`, and `a2` is the old `a2` times the new `g` |
| LegacyFilters.LegacyTanSetSampleRate | src/filters.rs:55-65 | only the sample rate and coefficients change: `g` is the tangent for the new rate, `a1 = 1/(1 + g*(g*k))` with the kept `k`, and `a2` is scaled by the new `g` |
| LegacyFilters.LegacyTanTick | src/filters.rs:67-82 | returns only the low output; the output and the state match the current tangent form's tick from the same state |
| LegacyFilters.LegacyTanDiscardedOutputs | src/filters.rs:77-79 | the discarded notch, peak and all-pass values equal the current form's notch, peak and all-pass outputs |
| LegacyFilters.LegacyTanApply | src/filters.rs:50-82 | no call changes `k` |
| LegacyFilters.LegacyTanDampingFixed | src/filters.rs:29-32 | after any call sequence `k` is still its value at construction |
| LegacyFilters.LegacySinGains | src/filters.rs:113-124 | with damping `2 - 2*0.9`, the normaliser is positive, the gains are `sin(2w)` and `2*sin(w)²` over it, and `g1 = -g2 - k*g0` |
| LegacyFilters.GainsCarried | src/filters.rs:149-160 | gains computed for the stored cutoff and rate are the gains of the stored filter |
| LegacyFilters.LegacySinNew | src/filters.rs:102-137 | cutoff 500 Hz, resonance 0.9, `k = 2 - 2*0.9`, zero state, and gains equal to those of the stored cutoff and rate, related as above |
| LegacyFilters.LegacySinReinit | src/filters.rs:149-160 | recomputes only the gains, for the stored cutoff and rate with the stored `k`, keeping the relation |
| LegacyFilters.LegacySinSetCutoff | src/filters.rs:139-142 | only the cutoff and gains change, and the gains are those of the new cutoff |
| LegacyFilters.LegacySinSetSampleRate | src/filters.rs:144-147 | only the sample rate and gains change, and the gains are those of the new rate |
| LegacyFilters.LegacySinTick | src/filters.rs:162-178 | returns only the low output; the output and the state match the current sine form's tick from the same state |
| LegacyFilters.LegacySinDiscardedAllpass | src/filters.rs:176 | the discarded "all-pass" value `x - k*v1 - 2*v2` is high minus low, not the all-pass response |
| LegacyFilters.LegacySinApply | src/filters.rs:139-178 | no call changes `k`, and each call keeps the gain relation and the gains tied to the stored cutoff and rate |
| LegacyFilters.LegacySinRunKeeps | src/filters.rs:149-160 | after any call sequence `k` is still `2 - 2*0.9`, the gain relation holds, and the gains are those of the stored cutoff and rate |
| Pipeline.New | src/filter_pipeline/pipeline.rs:15-20 | a new pipeline has no elements and satisfies the order invariant |
| Pipeline.RegisterStereoPair | src/filter_pipeline/pipeline.rs:23-31 | appends one stereo element and schedules its index last; this keeps `order[i] == i` and `|order| == |registered|` |
| Pipeline.Slots | src/filter_pipeline/pipeline.rs:38-39 | the visited elements are the registered ones, in `order` sequence |
| Pipeline.Run | src/filter_pipeline/pipeline.rs:38-48 | threading a sample keeps the number of filter instances |
| Pipeline.ProcessStereo | src/filter_pipeline/pipeline.rs:34-49 | processing keeps the number of filter instances |
| Pipeline.NewIsIdentity | src/filter_pipeline/pipeline.rs:15-20 | a new pipeline returns `(l, r)` unchanged and calls no filter |
| Pipeline.VisitsInRegistrationOrder | src/filter_pipeline/pipeline.rs:30 | under the invariant, elements are visited in registration order |
| Pipeline.RunAppend | src/filter_pipeline/pipeline.rs:38-48 | threading through two lists in a row is threading through their concatenation |
| Pipeline.RegisterRunsLast | src/filter_pipeline/pipeline.rs:23-49 | after registering a pair, processing is the old processing followed by the new pair |
| Pipeline.DropMono | src/filter_pipeline/pipeline.rs:44 | the result holds exactly the stereo elements of the list and nothing else, and keeps the whole list exactly when it has no mono element |
| Pipeline.DropMonoAppend | src/filter_pipeline/pipeline.rs:38-44 | dropping mono elements distributes over concatenation, so the stereo elements keep their relative order |
| Pipeline.DropMonoKeepsStereo | src/filter_pipeline/pipeline.rs:44 | an all-stereo list is kept unchanged and a lone mono element is dropped |
| Pipeline.AllStereoKept | src/filter_pipeline/pipeline.rs:44 | a list with no mono element is returned unchanged |
| Pipeline.MonoIsNoOp | src/filter_pipeline/pipeline.rs:44 | removing every mono element changes no output, filter state or call |
| Pipeline.CallsPairUp | src/filter_pipeline/pipeline.rs:40-43 | each stereo element calls its left filter, then its right filter, once each, in element order |
| Pipeline.CallsThread | src/filter_pipeline/pipeline.rs:35-48 | the left value passes through the left calls in turn (the first gets the input, the last gives the result), and likewise on the right |
| Pipeline.Ids | src/filter_pipeline/pipeline.rs:40-43 | every id listed for a side is that side's filter in some stereo element |
| Pipeline.Chain | src/filter_pipeline/pipeline.rs:41 | running one side's filters alone keeps the number of instances |
| Pipeline.ChainFrame | src/filter_pipeline/pipeline.rs:41 | one side's chain depends only on that side's instances |
| Pipeline.SidesAreChains | src/filter_pipeline/pipeline.rs:38-48 | with no instance on both sides, the left result is the left input through the left filters alone, and the right likewise |
| Pipeline.LeftIndependentOfRight | src/filter_pipeline/pipeline.rs:40-43 | with distinct instances, the left output depends only on the left input and the left filters' states |
| Pipeline.RightIndependentOfLeft | src/filter_pipeline/pipeline.rs:40-43 | with distinct instances, the right output depends only on the right input and the right filters' states |
| PeakFollower.SumSnoc | src/peak_follower.rs:56 | appending a value adds it to the sum |
| PeakFollower.SumBounds | src/peak_follower.rs:56 | values in [0, m] sum to between 0 and the count times m |
| PeakFollower.NewSmoother | src/peak_follower.rs:47-51 | a new smoother holds `size` zeros |
| PeakFollower.Smooth | src/peak_follower.rs:53-57 | the window keeps its length, drops its oldest value and appends the input; the output is the old sum, less the dropped value, plus the input, over the length |
| PeakFollower.Window | src/peak_follower.rs:53-57 | the window holds the last `n` inputs oldest first, with zeros before the first input |
| PeakFollower.Feed | src/peak_follower.rs:53-57 | feeding a block gives one output per input and keeps the window length |
| PeakFollower.SmoothSlidesWindow | src/peak_follower.rs:47-57 | a smoother holding the last `n` inputs holds the last `n` inputs again after one more |
| PeakFollower.SmootherHoldsWindow | src/peak_follower.rs:47-57 | a fresh smoother of size `n` fed any inputs holds exactly the last `n` of them, zeros before enough have arrived |
| PeakFollower.SmootherIsWindowMean | src/peak_follower.rs:47-57 | from a fresh smoother of size `n`, the output at each sample is the mean of the last `n` inputs (zeros before enough have arrived) |
| PeakFollower.SmoothBounded | src/peak_follower.rs:53-57 | rectified values no larger than `m` average to between 0 and `m` |
| PeakFollower.DivideBound | src/peak_follower.rs:56 | a sum of at most `n*m` over `n` values is at most `m` |
| PeakFollower.SumNonneg | src/peak_follower.rs:56 | non-negative values have a non-negative sum |
| PeakFollower.SmoothRectified | src/peak_follower.rs:23 | fed rectified input, the window stays non-negative and so does its mean |
| PeakFollower.NewFollower | src/peak_follower.rs:11-20 | a new follower has peak 0, hold counter 0, the given release, hold and rate, and a silent window of the given size |
| PeakFollower.ProcessKeepsRectified | src/peak_follower.rs:23 | the follower only feeds rectified values to its smoother, so the smoothed level is never negative |
| PeakFollower.Process | src/peak_follower.rs:22-35 | a level above the peak becomes the peak and restarts the hold; otherwise the hold counts down one sample period and, once negative, the peak drops by `release/rate`; the new peak is returned |
| PeakFollower.SetSampleRate | src/peak_follower.rs:37-39 | only the sample rate changes |
| PeakFollower.PeakTracksLevel | src/peak_follower.rs:22-35 | the returned peak is never more than one sample's release below the smoothed level |
| PeakFollower.NoLowerClamp | src/peak_follower.rs:27-31 | there is no floor at 0: a fresh follower with release 1, no hold, rate 1 and a one-sample window, fed silence, returns -1 |
| PeakFollower.Follow | src/peak_follower.rs:22-35 | a block of samples gives one output per input |
| PeakFollower.HoldNeverFalls | src/peak_follower.rs:22-32 | while both the running and a restarted hold cover the block, the peak never falls: outputs are non-decreasing and never below the starting peak |

## Left out

- User interface (the widget modules), parameter declarations, host integration (plugin traits, export macros, buffer iteration) and the parameter smoothers' `next()` calls: the per-sample delay time and feedback values are inputs to `Delax.Process` instead.
- Floating-point rounding: samples and coefficients are real numbers, so no result here accounts for `f32` rounding, overflow to infinity or NaN.
- The values of `tan` and `sin`: they are parameters, with `sin` known only to lie in [-1, 1]; the reverb's modulation phase update is kept but its sine is arbitrary.
- Division by zero in `f32`: where the source would divide by a zero sample rate or a zero normaliser (producing infinities), the model requires a nonzero divisor (`Simper.TanValid`, `Simper.SinDefined`, `PeakFollower.CanProcess`, `DattorroBlocks.DecayValid`) or reports failure (`Simper.TanApply`, `Simper.SinApply`).
- Simper.TanSetRes: requires the resonance to lie in [0, 1], the parameter's range, so that `a1`'s denominator stays at least 1; the source accepts any value.
- The `as i32` casts in the reverb's index arithmetic: buffer lengths are taken to be below 2^31, so they never wrap.
- Locking and shared ownership in the pipeline: filters are plain states in a bank, called one after another; two elements may name the same instance.
- Filter trait declarations: `Filter` is an abstract step `(S, real) -> (real, S)`; the stereo filter trait is the reverb's own `ProcessStereo`.
- Numeric.ToUsize: does not model the cast's upper saturation at `usize::MAX`, and `DelayEngine.SetDelayAmount` does not model an overflow of the `usize` sum `read_head + delay_samples` (src/delay_engine/engine.rs:48); both need a delay far beyond the parameter's 1000 ms maximum (src/delay_engine/params.rs:29-33).
- `get_buffer_ptr` of the delay engine, used only by a unit test: the model exposes the buffer directly.
- Dattorro.ProcessStereo: its own contract states only validity and what it keeps. Its output and next state follow by composing the contracts of `Dattorro.FrontEnd`, `Dattorro.Tank` and `Dattorro.HalfStep`, which give every next field and output value in terms of the block steps (`Process`, `Damp`, `DiffuseInput`, `DiffuseDecay`, `Insert`, `Output`), together with `Dattorro.OnlyTheSumMatters` and the silence invariant. No closed arithmetic formula in the raw inputs is proved for a non-silent reverb: the composed step reads buffers at modulated offsets, so such a formula would only repeat the block definitions.
- PeakFollower.Process: requires a positive window size (the source panics on an empty window) and a nonzero sample rate (the source would divide by zero).
