# SDL_nmix in Dafny

A model of SDL_nmix, a small stereo mixer on SDL2 whose sources are pulled
through SDL_AudioStream converters and mixed into the device's float buffer,
and of its SDL_sound file source. The model covers:

- the session: opening and closing the device, and the master gain;
- sources: creation with their buffer sizes, gain and pan setters and getters,
  and freeing;
- the playing-source registry: a doubly linked list, changed in place by
  `NMIX_Play` and `NMIX_Pause`, and queried by `NMIX_IsPlaying`;
- the device callback `nmix_callback`, which drains every playing source's
  converter, scales it by gain, master gain and pan, mixes it with saturation,
  refills the converter from the source callback and removes sources at their
  end;
- the file source: `sdlsound_callback`, which copies decoded bytes out of
  SDL_sound's buffer, decodes more, and rewinds or pads with silence at the
  end of the file, plus `NMIX_Rewind`, the loop flag, creation and freeing.

Modules, one per concern:

| module | file | what it holds |
|---|---|---|
| `AudioFormat` | format.dfy | format words and `SDL_AUDIO_SAMPLELEN` |
| `SampleMath` | samplemath.dfy | `clampf`, `mix_samples`, `apply_panning`; `Scaled`, `MixAt`, `Render`, reference definitions of what a period holds |
| `Seqs` | seqs.dfy | removal from sequences |
| `Voice` | voice.dfy | the `Source` class (converter as a FIFO of converted samples, refill script), setters and getters, buffer sizing |
| `Registry` | registry.dfy | the shape of the playing list as a value, and what appending and unlinking do to it |
| `Engine` | engine.dfy | the `Mixer` class (session state and list head), `nmix_callback` |
| `SoundFile` | soundfile.dfy | the `FileSource` class and `sdlsound_callback` |

The mixer's methods write the real `prev`/`next` pointers of `Source` objects.
A ghost `ListShape` records the list those pointers spell out. `nmix_callback`
is proved against `Render`: silence, then each playing source's drained samples
scaled (`Scaled`) and mixed in with saturation (`MixAt`), in list order.
Each source's pass is tied to its converter and its refills by `Accounts`:
what it drained, which refills it made and when, and how it ended.
`sdlsound_callback` is proved against `Produced`: the bytes left in the file,
then the whole file again while looping, and otherwise silence.

What SDL, the source callbacks and SDL_sound do is given as data:
- the device SDL grants (`Device`);
- what each refill of a source pushes into its converter (`Refill`: samples,
  whether it set eof, whether `SDL_AudioStreamPut` succeeded);
- what successive `Sound_Decode` calls return (`Chunk`);
- whether `Sound_Rewind` succeeds on a file (`rewinds`).

Where a natural reading of what the library mixes and the code differ, the model
follows the code:
- The input buffer's frame count is truncated (`rate * samples / freq` in C
  `int` arithmetic, SDL_nmix.c:196), not rounded up. The rounded-up size is
  modelled separately as the correction under "## Findings".
- The master gain multiplies each sample before panning and mixing
  (SDL_nmix.c:61-62). It is not a final pass over the mixed buffer.
- At pan 0 the linear pan law halves both channels (SDL_nmix.c:22-24). Two
  centred sources of value v therefore mix to v, not to clamp(v + v)
  (`SampleMath.TwoCentredSources`).
- Mixing clamps after every source (SDL_nmix.c:65-66). The result is not the
  clamped sum of all contributions once partial sums clip with mixed signs
  (`SampleMath.FoldMixIsNotClampedSum`).

## Model

| member | source | states |
|---|---|---|
| AudioFormat.BitSize | SDL_nmix.c:198 | the bit size field of a format word is below 256 |
| AudioFormat.SampleLen | SDL_nmix.c:198 | SDL_AUDIO_SAMPLELEN: the whole bytes of the format's bit size (8n <= bits < 8n + 8) |
| AudioFormat.StandardSampleLens | SDL_nmix.c:198 | U8/S8 are 1 byte, S16 2, S32 and F32 4 |
| AudioFormat.SampleBytesIsSampleLen | SDL_nmix.c:31 | the mixer's AUDIO_F32SYS samples are 4 bytes on either byte order |
| SampleMath.Clamp | SDL_nmix.c:8-10 | clampf returns a value in [lo, hi], x itself when x is in range, and the point of [lo, hi] nearest to x |
| SampleMath.MixSamples | SDL_nmix.c:13-18 | the mix lies in [-1, 1]: the plain sum when that is in range, 1 or -1 when it saturates |
| SampleMath.ApplyPanning | SDL_nmix.c:21-25 | left is scaled by 1 - amplitude and right by amplitude, with amplitude = pan/2 + 1/2; for a pan in [-1, 1] neither channel grows in magnitude |
| SampleMath.PanLaw | SDL_nmix.c:21-25 | for pans in [-1, 1] both amplitudes lie in [0, 1] and add to 1: hard left, centre (one half each), hard right |
| SampleMath.ScaleDown | SDL_nmix.c:23-24 | scaling by a factor in [0, 1] never increases a sample's magnitude |
| SampleMath.HardPanning | SDL_nmix.c:21-25 | pan -1 silences the right channel and pan 1 the left |
| SampleMath.ScaledFrame | SDL_nmix.c:60-63 | the scaled layer holds, for each frame, the gain-and-master-scaled left and right samples panned by apply_panning |
| SampleMath.ScaledAppend | SDL_nmix.c:58-67 | scaling drained audio chunk by chunk equals scaling it all at once (chunks hold whole frames) |
| SampleMath.MixAtAppend | SDL_nmix.c:58-69 | mixing one chunk and then the next at the following offset equals mixing both at once |
| SampleMath.MixOnward | SDL_nmix.c:43-69 | the inner loop's successive chunks build up the mix of everything drained so far |
| SampleMath.Render | SDL_nmix.c:30 | a period holds exactly n samples |
| SampleMath.RenderSnoc | SDL_nmix.c:38-96 | mixing one more source into a period is mixing its layer into the previous period |
| SampleMath.RenderBounded | SDL_nmix.c:17 | every sample of a mixed period lies in [-1, 1], whatever the sources deliver |
| SampleMath.FoldMixSnoc | SDL_nmix.c:65-66 | each source's contribution is mixed into the running value with one more saturation |
| SampleMath.RenderAt | SDL_nmix.c:65-66 | sample k of a period is the left-to-right saturating fold of the layers' samples k, starting from silence |
| SampleMath.FoldMixNonNegative | SDL_nmix.c:65-66 | with only non-negative contributions, the fold is the clamped sum |
| SampleMath.FoldMixIsNotClampedSum | SDL_nmix.c:65-66 | with mixed signs it is not: 0.9, 0.9, -0.9 fold to 0.1, while the clamped sum is 0.9 |
| SampleMath.TwoCentredSources | SDL_nmix.c:22-24 | two centred sources of constant value v at gain 1 mix to v |
| Seqs.Without | SDL_nmix.c:290-303 | removing a present element shortens the list by one, and removing an absent one changes nothing |
| Seqs.WithoutAt | SDL_nmix.c:290-303 | removing the element at position k of a list without repeats cuts out exactly position k and keeps it repeat-free |
| Seqs.Drop | SDL_nmix.c:85-87 | the list with the ended sources removed holds no ended source and keeps every other one |
| Registry.NoRepeat | SDL_nmix.c:5 | next pointers that match the list rule out a source listed twice |
| Registry.LinkedDistinct | SDL_nmix.c:5 | the playing list has no repeats |
| Registry.Successor | SDL_nmix.c:40 | a source's next pointer is its successor in the list, null for the last |
| Registry.Member | SDL_nmix.c:308-313 | a live source is listed exactly when it is the head or has a prev |
| Registry.Tail | SDL_nmix.c:262-266 | the walk along next pointers stops exactly at the last listed source |
| Registry.Append | SDL_nmix.c:258-271 | the pointer writes of NMIX_Play (a new head, or tail.next and source.prev) spell out the list with the source appended |
| Registry.AppendPrevs | SDL_nmix.c:270 | after appending, every prev pointer is the predecessor in the longer list |
| Registry.AppendNexts | SDL_nmix.c:269 | after appending, every next pointer is the successor in the longer list |
| Registry.Appended | SDL_nmix.c:258-271 | the appended shape lists the old sources and then the new one; its head is the new source only when the list was empty |
| Registry.AppendedLinks | SDL_nmix.c:269-270 | appending changes only the new source's prev and the old tail's next |
| Registry.Unlink | SDL_nmix.c:290-303 | the pointer writes of NMIX_Pause spell out the list without the paused source, which then has no links |
| Registry.UnlinkUnlisted | SDL_nmix.c:302-303 | after unlinking, no source off the list keeps a link |
| Registry.UnlinkPrevs | SDL_nmix.c:291-293 | after unlinking, every prev pointer is the predecessor in the shorter list |
| Registry.UnlinkNexts | SDL_nmix.c:295-300 | after unlinking, every next pointer is the successor in the shorter list, and the head moves on when the first source is paused |
| Registry.Unlinked | SDL_nmix.c:290-303 | the unlinked shape lists the sources before and after position k; its head moves on only when the head was removed |
| Registry.Neighbours | SDL_nmix.c:291-296 | a listed source's prev and next are its neighbours, never itself, and live |
| Registry.UnlinkedList | SDL_nmix.c:290-303 | unlinking position k removes that source and no other |
| Registry.UnlinkedPrevs | SDL_nmix.c:291-293 | unlinking changes only the prev of the removed source's successor and the removed source's own |
| Registry.UnlinkedNexts | SDL_nmix.c:295-300 | unlinking changes only the next of the removed source's predecessor and the removed source's own |
| Registry.Add | SDL_nmix.c:219-220 | a new source with no links leaves the list well formed |
| Registry.Added | SDL_nmix.c:219-220 | adding a source keeps the list and head, and the new source has null links |
| Registry.Delete | SDL_nmix.c:235-238 | freeing a source that is not listed leaves the list well formed |
| Registry.Removed | SDL_nmix.c:235-238 | removing an unlisted source keeps the list, the head and every other link |
| Voice.Delivered | SDL_nmix.c:79 | converted samples come in whole frames; refills that push nothing deliver nothing |
| Voice.DeliveredAppend | SDL_nmix.c:76-83 | what successive refills deliver is the concatenation of what each delivers |
| Voice.DeliveredSnoc | SDL_nmix.c:76-83 | one more refill appends its samples to the converter's contents |
| Voice.StopsLater | SDL_nmix.c:43-93 | a refill that neither sets eof nor fails leaves the end still ahead |
| Voice.SetsEofSnoc | SDL_nmix.c:74 | eof has been set after one more refill exactly when it was before or that refill set it |
| Voice.Source.constructor | SDL_nmix.c:184-191 | a new source has pan 0, gain 1, eof clear, no links and an empty converter |
| Voice.Source.Available | SDL_nmix.c:45 | SDL_AudioStreamAvailable: zero exactly when the converter is empty, and always whole frames |
| Voice.Source.Get | SDL_nmix.c:55 | SDL_AudioStreamGet returns the oldest converted samples, as many as asked or as are available |
| Voice.Source.Feed | SDL_nmix.c:76-83 | the source callback plus SDL_AudioStreamPut: the next refill is consumed, its samples queued, eof set if it sets it, and the Put result returned |
| Voice.GetPan | SDL_nmix.c:315-320 | the pan, in [-1, 1], or 0 for no source |
| Voice.SetPan | SDL_nmix.c:322-327 | the stored pan is the request clamped to [-1, 1]; nothing else changes; no effect on no source |
| Voice.GetGain | SDL_nmix.c:329-334 | the gain, in [0, 2], or 0 for no source |
| Voice.SetGain | SDL_nmix.c:336-341 | the stored gain is the request clamped to [0, 2]; nothing else changes; no effect on no source |
| Voice.CDiv | SDL_nmix.c:196 | C's `int` division: the quotient's magnitude is the largest whose multiple of the divisor's does not exceed the dividend's, and its sign is that of the product (truncation toward zero) |
| Voice.InFrames | SDL_nmix.c:196 | in_nb_samples, `rate * samples / freq` in C `int` division: never negative for a positive device rate, and 0 when rate * samples < freq; InFramesRoundsDown and InFramesZero characterise it |
| Voice.InBufferSize | SDL_nmix.c:196-198 | in_buffer_size, in_nb_samples times channels times SDL_AUDIO_SAMPLELEN: never negative, and 0 when one device period is shorter than one source frame |
| Voice.InFramesRoundsDown | SDL_nmix.c:196 | for positive rates, in_nb_samples is the period's source frames rounded down |
| Voice.InBufferSizeTruncates | SDL_nmix.c:196-198 | 22050 Hz into 48000 Hz with 1000-frame periods gives 459 frames, 3672 bytes of stereo float |
| Voice.InBufferSizeCanBeZero | SDL_nmix.c:196-198 | an 80 Hz source on a 48000 Hz device with 512-frame periods gets a 0-byte in_buffer |
| Voice.InFramesZero | SDL_nmix.c:196 | in_nb_samples is 0 exactly when rate * samples < freq |
| Voice.InFramesCeil | SDL_nmix.c:196 | the corrected frame count is at least one and the fewest frames that cover the period |
| Voice.InBufferSizeCeil | SDL_nmix.c:196-198 | the corrected size is positive for any source with channels and samples, and never below the truncated size |
| Engine.Silence | SDL_nmix.c:30 | the period starts as silence |
| Engine.MixChunk | SDL_nmix.c:58-67 | mixing one drained chunk adds its scaled, panned samples at the write position with saturation |
| Engine.DrainChunk | SDL_nmix.c:44-69 | the copy size is the smallest of what is available, out_buffer_size and what is left of the period; those oldest samples leave the converter and are mixed in |
| Engine.Stream | SDL_nmix.c:42-93 | one source's inner loop: the drained samples are what it held plus what its refills delivered minus what is left, they fill the period unless it ended or a Put failed; no refill comes after eof, before the converter ran dry, in an empty period, or after one made as the period became full; a source that fills the period with its converter empty and eof clear is refilled just then; it ends exactly when eof is set and the converter is empty |
| Engine.Turn | SDL_nmix.c:43-93 | one iteration of the inner loop keeps those facts, including that every refill but the last came before the period was full, and makes progress: one more refill, or more samples written |
| Engine.Settle | SDL_nmix.c:73-91 | when the converter runs dry: a source without eof is refilled, a failed Put aborts, and one with eof ends; a pass that goes on with the period full either holds samples or was refilled just as it filled (FullStop) |
| Engine.Replenish | SDL_nmix.c:76-83 | a refill consumes the next entry of the script and queues what it delivers |
| Engine.Refilled | SDL_nmix.c:73-83 | a refill taken when the converter is dry keeps "eof only on the last refill" and "refill only when dry" |
| Engine.EofOnlyLastSnoc | SDL_nmix.c:74 | a refill after refills that did not set eof keeps eof only on the last |
| Engine.RefilledDrySnoc | SDL_nmix.c:73 | a refill taken once everything before it is drained keeps "refill only when dry" |
| Engine.RefilledDryMore | SDL_nmix.c:73 | draining more keeps "refill only when dry" |
| Engine.ShortSnoc | SDL_nmix.c:43-83 | a refill after refills made while the period was not yet full keeps every refill but the last short of the full mark |
| Engine.ShortAll | SDL_nmix.c:43-83 | every refill but the last came before the period was full |
| Engine.OneRefillAtFull | SDL_nmix.c:43-83 | a one-frame source in a one-frame period is refilled once as it fills, never twice |
| Engine.RefillAtFull | SDL_nmix.c:43-83 | the same source with eof clear cannot fill the period without that refill |
| Engine.EofAtFullSnoc | SDL_nmix.c:43-76 | a refill that sets eof, taken once everything before it was drained, comes exactly at the drained length (EofAtFull), the one case where the source does not end in that pass |
| Engine.Statuses | SDL_nmix.c:38-96 | after some passes, each visited source holds the status its pass left and every other source the status it was found with |
| Engine.RecordedAt | SDL_nmix.c:38-96 | every pass starts from the status found at its position and accounts for what it left; only the last may be aborted |
| Engine.PassSnoc | SDL_nmix.c:38-96 | one more accounted pass extends the record and updates the status at its position |
| Engine.Extended | SDL_nmix.c:38-96 | one more pass extends the record, the statuses, the layers and the rendered period together |
| Engine.Layers | SDL_nmix.c:58-67 | each pass contributes its drained samples scaled by its gain, the master gain and its pan |
| Engine.LayersSnoc | SDL_nmix.c:58-67 | one more pass adds one more layer at the end |
| Engine.EndedSources | SDL_nmix.c:85-87 | every source removed for eof was visited by a pass |
| Engine.EndedSnoc | SDL_nmix.c:85-87 | a pass that ends its source adds exactly that source to the removed ones |
| Engine.RemainingOrder | SDL_nmix.c:38-96 | after some passes the playing list is the visited sources that did not end, then the ones not yet visited, in order |
| Engine.WalkNext | SDL_nmix.c:40 | the next pointer saved before a pass is the next source of the original list |
| Engine.WalkStep | SDL_nmix.c:85-95 | a pass removes its source from the list exactly when it ended |
| Engine.UnthreadedLinks | SDL_nmix.c:290-303 | after NMIX_Pause's pointer writes, every live source holds its links in the unlinked shape |
| Engine.Mixer.Spelled | SDL_nmix.c:5 | pointers that match the recorded shape spell out the playing list |
| Engine.Mixer.constructor | SDL_nmix.c:3-6 | the session starts closed, with master gain 1 and no sources |
| Engine.Mixer.OpenAudio | SDL_nmix.c:99-138 | -1 when already open or when SDL refuses the device; otherwise 0, open, with the granted rate and period and a period of stereo floats in bytes |
| Engine.Mixer.CloseAudio | SDL_nmix.c:140-149 | -1 when already closed, otherwise 0; the session ends closed and the sources are kept |
| Engine.Mixer.GetMasterGain | SDL_nmix.c:155-157 | the master gain, in [0, 2] |
| Engine.Mixer.SetMasterGain | SDL_nmix.c:159-161 | the stored master gain is the request clamped to [0, 2] |
| Engine.Mixer.IsPlaying | SDL_nmix.c:308-313 | true exactly when the source is in the playing list (head, or has a prev), false for no source |
| Engine.Mixer.NewSource | SDL_nmix.c:171-223 | null when no device is open or creation fails; otherwise a fresh source that is not playing, with pan 0, gain 1, eof clear, an empty converter, in_buffer_size from the truncated frame count and out_buffer_size one device period |
| Engine.Mixer.FreeSource | SDL_nmix.c:225-240 | the source is paused if playing and then gone; nothing for no source |
| Engine.Mixer.Play | SDL_nmix.c:242-276 | -1 for no source or one already playing, and nothing changes; otherwise 0, the source is appended at the tail and its eof cleared |
| Engine.Mixer.Attach | SDL_nmix.c:258-271 | the source is appended at the tail of the playing list |
| Engine.Mixer.TailSource | SDL_nmix.c:262-266 | the walk along next pointers finds the last playing source |
| Engine.Mixer.Thread | SDL_nmix.c:258-271 | the pointer writes leave every live source's links as in the appended shape |
| Engine.Mixer.Pause | SDL_nmix.c:278-306 | a playing source is removed from the list in place and no source's audio state changes; nothing for no source or one not playing |
| Engine.Mixer.Detach | SDL_nmix.c:290-303 | the source's first occurrence is removed and the others keep their order |
| Engine.Mixer.Unthread | SDL_nmix.c:290-303 | the pointer writes leave every live source's links as in the unlinked shape |
| Engine.Mixer.Callback | SDL_nmix.c:28-97 | the period is the rendering of the passes in list order and lies in [-1, 1] (silence when nothing plays); the passes cover the playing list unless a Put failed; each accounts for its source; ended sources leave the list, the rest keep their order, and sources not playing are untouched |
| Engine.Mixer.Walk | SDL_nmix.c:37-96 | the outer loop: the period is the rendering of the passes so far, and the list is what remains of the original |
| Engine.Mixer.Step | SDL_nmix.c:39-95 | one iteration of the outer loop adds one accounted pass and moves to the saved next source |
| Engine.Mixer.Visit | SDL_nmix.c:39-95 | a pass over one source changes only that source's status and returns the source that followed it |
| Engine.Mixer.Revisit | SDL_nmix.c:42-95 | the pass over the current source accounts for it, adds its layer to the period, and leaves every other source as it was |
| Engine.Mixer.MixSource | SDL_nmix.c:42-93 | one source's pass accounts for its status (what it drained, its refills, one and only one at the full mark when it leaves its converter empty, and how it ended), adds its layer, and pauses it exactly when it ended |
| SoundFile.AfterShift | SDL_nmix_file.c:20-31 | what is left after n bytes, minus c more, is what is left after n + c |
| SoundFile.AfterEnd | SDL_nmix_file.c:55-59 | past the end of a looping file, the file starts over |
| SoundFile.MatchesShift | SDL_nmix_file.c:27-31 | copying bytes out of the read window keeps the source in step with the stream |
| SoundFile.ProducedAfter | SDL_nmix_file.c:20-67 | a source left with what remains after n bytes hands out what the original hands out from byte n on |
| SoundFile.MatchesResumes | SDL_nmix_file.c:20-67 | a source in step with the stream carries on where it left off |
| SoundFile.ResumesChain | SDL_nmix_file.c:9-68 | consecutive callbacks hand out consecutive stretches of the stream |
| SoundFile.LoopRepeats | SDL_nmix_file.c:55-59 | a looping source repeats the whole file once what was ahead is used up |
| SoundFile.EndSilent | SDL_nmix_file.c:60-63 | a source that does not loop is silent after its end |
| SoundFile.FileSource.constructor | SDL_nmix_file.c:103-108 | a new file source reads from the buffer start, has nothing left to read, and does not loop |
| SoundFile.FileSource.DecodeNext | SDL_nmix_file.c:51 | Sound_Decode writes the next chunk at the buffer start, sets the end flags, and returns its length |
| SoundFile.FileSource.DecodeAll | SDL_nmix_file.c:112 | Sound_DecodeAll leaves the rest of the file in the buffer and returns its size |
| SoundFile.Copy | SDL_nmix_file.c:28 | SDL_memcpy writes exactly its source bytes at the offset and nothing else |
| SoundFile.ZeroFill | SDL_nmix_file.c:62 | SDL_memset silences the rest of the buffer and keeps what was written |
| SoundFile.Advanced | SDL_nmix_file.c:27-31 | the copied bytes are the stream's next ones and the source stays in step after them |
| SoundFile.SoundCallback | SDL_nmix_file.c:9-68 | every byte of the buffer is the stream's next byte (the rest of the file, then the file over again when looping, otherwise silence); the source then carries on where the buffer stopped, or, not looping and at its end, sets eof; a predecoded source that does not loop sets eof exactly when what was left fits the buffer |
| SoundFile.FillStep | SDL_nmix_file.c:20-67 | one iteration keeps every written byte the stream's and makes progress: more bytes, a rewind, or a decode |
| SoundFile.DryOut | SDL_nmix_file.c:35-66 | when the read window runs dry, a source at its end that does not loop is silenced to the end of the buffer; otherwise what is ahead is kept or the file starts over |
| SoundFile.CopyOut | SDL_nmix_file.c:21-31 | the copy step hands out the stream's next bytes and what is ahead loses exactly those |
| SoundFile.CopyStep | SDL_nmix_file.c:22-30 | the copy size is what is left of the buffer capped by bytes_left; those bytes are copied and the read position moves past them |
| SoundFile.Advance | SDL_nmix_file.c:29-30 | moving the read position on by c drops the first c bytes of what is ahead |
| SoundFile.WindowCut | SDL_nmix_file.c:29-30 | reading c bytes of the window moves the window on |
| SoundFile.Refresh | SDL_nmix_file.c:36-53 | the window goes back to the whole buffer; a predecoded source, or one whose decoder flagged the end, sets eof with nothing ahead; otherwise the next decode keeps what is ahead |
| SoundFile.RunDry | SDL_nmix_file.c:35-66 | after refreshing, a source at its end is rewound when looping; a source still at its end does not loop |
| SoundFile.Rewind | SDL_nmix_file.c:140-161 | -1 for no source; otherwise eof cleared and the read position at the start; 0 when the file is predecoded or can be rewound, the source then at the start of its file; -1 otherwise, with nothing to read |
| SoundFile.GetLoop | SDL_nmix_file.c:163-169 | whether the source loops, false for no source |
| SoundFile.SetLoop | SDL_nmix_file.c:171-177 | GetLoop then reports the flag set; no effect on no source |
| SoundFile.DryCycle | SDL_nmix_file.c:35-65 | for a looping file that cannot be replayed, the dry branch leaves eof clear, nothing to read and nothing ahead, and the decoder state as it was: the loop never ends |
| SoundFile.SoundCallbackGuarded | SDL_nmix_file.c:9-68 | with the end guarded, for any looping flag the buffer is the stream of a source that loops exactly when its file is non-empty and replayable, and the callback returns |
| SoundFile.GuardedStep | SDL_nmix_file.c:20-67 | one guarded iteration keeps every written byte the stream's and makes progress: more bytes, a rewind, or a decode |
| SoundFile.GuardedDry | SDL_nmix_file.c:35-66 | the guarded dry branch ends the loop, with the rest silenced, exactly for a source at its end that does not loop on |
| SoundFile.Replay | SDL_nmix_file.c:55-60 | at the end of the file, a looping source not rewound since its last copied byte is rewound; it stays at its end exactly when it does not loop, was rewound already, or cannot be rewound |
| SoundFile.NewFileSource | SDL_nmix_file.c:70-117 | null without an open device, for a file SDL_sound cannot open, or when the mixer source cannot be created; otherwise a new mixer source in the file's format, not playing, not looping, at the start of the file, holding it whole when predecoded |
| SoundFile.Start | SDL_nmix_file.c:103-116 | the fields are initialised and a predecoded file is decoded whole into the buffer |
| SoundFile.FreeFileSource | SDL_nmix_file.c:179-193 | the mixer source is paused if playing and freed; nothing for no source |

## Left out

- Engine.Mixer.NewSource: the three SDL_malloc failures (SDL_nmix.c:178-182, 199-210) and the SDL_NewAudioStream failure (212-217) are one parameter, `streamOk`. Any of them returns null. The buffers C leaks on those paths are not modelled.
- Voice.InBufferSize: `rate * mixer.samples` (SDL_nmix.c:196) is a C `int` product and overflows above 2^31 - 1 (for instance 96000 Hz with 32768-frame periods). The model uses unbounded integers.
- Engine.Mixer.Callback: it requires every playing source to be able to fill its share (`Supplies`): its refills set eof, fail, or deliver enough. Without that, nmix_callback does not return (see "## Findings"). The C code does not check this.
- Voice.Source.Feed: a refill is an entry of the source's refill script, not in_buffer_size bytes produced by the source callback and converted by SDL_AudioStream. Resampling and format conversion are not modelled: the converter is a FIFO of converted float samples.
- SampleMath.Clamp, SampleMath.MixSamples, SampleMath.ApplyPanning: samples and gains are reals, not 32-bit floats. Rounding is not modelled.
- Engine.Mixer.Play, Engine.Mixer.Pause, Engine.Mixer.FreeSource, SoundFile.Rewind, SoundFile.FreeFileSource: SDL_LockAudioDevice and SDL_UnlockAudioDevice are not modelled. Each operation is atomic with respect to the callback thread.
- SoundFile.SoundCallback: the file source's mixer source has its own refill script, which is not derived from what SoundCallback produces. The mixer side and the file side are proved separately.
- SoundFile.SoundCallback: it requires the source's eof to be clear. nmix_callback calls the source callback only then (SDL_nmix.c:74).
- SoundFile.SoundCallback: it requires `Loopable`: a looping source has a non-empty file that is predecoded or can be rewound. Otherwise the C loop does not end (see "## Findings"; `SoundFile.SoundCallbackGuarded` drops the requirement).
- SoundFile.SoundCallback: for a streamed source whose remaining bytes exactly fill the buffer, the contract leaves open whether eof is set. C sets it only if the decoder had already flagged the end, and the model does not track when SDL_sound flags it.
- SoundFile.FileSource.Stocked: a streamed file's decodes fit SDL_sound's buffer and eventually flag the end of the file. Both are assumptions about SDL_sound, which is not part of this model.
- SoundFile.Rewind: whether Sound_Rewind succeeds is a constant of the file (`rewinds`), not an outcome of each call.
- SoundFile.Refresh: SOUND_SAMPLEFLAG_EOF and SOUND_SAMPLEFLAG_EAGAIN are one flag. A decode that sets only SOUND_SAMPLEFLAG_ERROR is not modelled (SDL_nmix_file.c:47-48). Whether SDL_sound can return 0 bytes that way, which would make the callback spin, cannot be decided without SDL_sound.
- SoundFile.NewFileSource: the SDL_malloc failure (SDL_nmix_file.c:77-81) and the Sound_NewSample failure (88-93) are one case, `Probe.Unsupported`. The RWops and extension arguments and the frees on failure are not modelled.
- Engine.Mixer.OpenAudio: the SDL version check and audio subsystem start-up (SDL_nmix.c:105-117) and SDL_OpenAudioDevice are one input, `Device`, which SDL grants or refuses. NMIX_PausePlayback (135, 151-153) is not modelled.
- NMIX_GetAudioSpec, NMIX_GetAudioDevice, NMIX_GetDuration and NMIX_Seek are not part of this model. They return SDL or SDL_sound state that the model does not hold.
- The fatal message printed when SDL_AudioStreamPut fails (SDL_nmix.c:81) is not modelled. The pass ends as `Aborted`.

## Findings

| source | as written | input that shows it | evidently intended | confidence | as-written member | corrected member |
|---|---|---|---|---|---|---|
| SDL_nmix.c:196 | `in_nb_samples = rate * mixer.samples / mixer.freq` truncates, so in_buffer_size is 0 whenever rate * samples < freq. Each refill then pushes no bytes: the converter stays empty and eof stays clear, and the inner loop of nmix_callback (lines 43-93) runs forever. A file source's callback writes nothing into a 0-byte buffer, so it never sets eof either. | an 80 Hz source on a 48000 Hz device with 512-frame periods (S16 stereo): in_buffer_size 0 | the period's frames rounded up, so every refill carries at least one frame | high, not executed | Voice.InFramesZero | Voice.InBufferSizeCeil |
| SDL_nmix_file.c:55-60 | a looping source at the end of a streamed file calls NMIX_Rewind and ignores its result. When Sound_Rewind fails, NMIX_Rewind (lines 140-157) has already cleared eof and bytes_left, and the decoder's EOF flag stays set. The next pass copies nothing, finds the flag and rewinds again, forever. | a looping streamed file whose Sound_Rewind fails, once its end is reached | a failed rewind ends the source as if it did not loop | high, not executed | SoundFile.DryCycle | SoundFile.SoundCallbackGuarded |
| SDL_nmix_file.c:41-59 | looping an empty predecoded file never ends the loop: its buffer_size is 0, so the rewind (line 151) leaves bytes_left 0 and the next pass sets eof again at once. A streamed empty file cycles the same way through one empty decode, which the corrected member also covers. | a looping predecoded source on a file with no audio data | a rewind that brings back no bytes ends the source | high, not executed | SoundFile.DryCycle | SoundFile.SoundCallbackGuarded |

The first correction reads the comment at SDL_nmix.c:193-195, which sizes the
input buffer for "all the samples that correspond to one nmix callback", as
rounding the period's source frames up. `Engine.Mixer.NewSource` keeps the truncated size,
because the mixer's refills are given by a script that does not depend on the
buffer size. The other two corrections track, in the callback, whether a byte
has been copied since the last rewind, and treat a failed rewind like the end
of a file that does not loop. `SoundFile.SoundCallbackGuarded` is proved
without any condition on looping and agrees with `SoundFile.SoundCallback`
wherever that one applies.
