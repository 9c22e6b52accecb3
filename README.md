# libremidi core: a verified model

This project models four pieces of libremidi, a cross-platform MIDI 1.0 / MIDI 2.0 (UMP) I/O
library, and proves what they promise.

- **Chunked UMP output with backpressure** (ALSA raw UMP backend). `send_ump` either writes a
  message at once or hands it to `write_chunked`. The direct path is taken whenever
  chunking is off or the message has at most 16 words, so an empty message is sent as one
  write of length 0. The chunked path writes the first chunk unconditionally. For each further chunk it polls the device's free buffer space and backs
  off through the caller's `wait(duration, written_bytes)` callback while there is too little
  room. It then paces through `wait` once more and writes the next chunk. The model keeps the
  port handle, the diagnostics raised and the handles closed as fields of a `MidiOut` class.
  The chunked send is a method with loops. It is proved against a step relation over traces
  (`ChunkedSend.Legal` / `ChunkedSend.Final`); the properties of a send are lemmas about that
  relation.
- **Backend registry**. There are two ordered catalogs of backend tags, one for MIDI 1.0 and
  one for MIDI 2.0, fixed at build time and each ending with the dummy backend. The model also
  covers the folds that visit every entry (`for_all_backends`), visit the first matching entry
  (`for_backend`), or chain the two catalogs (`midi_any`). Build features are a `Platform`
  record, and a visit is recorded as the catalog index the visitor is applied to.
- **Input state**. This is the `in_data` record with its defaults, the ignore-flag encoding, and
  callback management. The callback slot of an input API is never empty, and an arriving
  message reaches the installed callback exactly once.
- **JACK name helpers**. These are the port-name length check and the scan of a
  null-terminated port list.

Diagnostics are not thrown. Each call of the instance's error handler (`warning`,
`error<driver_error>`, ...) becomes a `Diagnostics.Diagnostic` event, with the source's message
text.

## Model

| member | source | states |
|---|---|---|
| Diagnostics.DecimalString | include/libremidi/backends/jack/config.hpp:68-70 | the port number is rendered as `std::to_string` does: decimal digits whose value is the number, with no leading zero except for 0 itself |
| Backends.MakeTl | include/libremidi/backends.hpp:51-57 | the placeholder is dropped; the tags keep their number and their order |
| Backends.Compiled | include/libremidi/backends.hpp:61-88 | the compiled tags of a catalog come only from its feature blocks |
| Backends.CompiledInOrder | include/libremidi/backends.hpp:51-88 | the compiled tags keep the order the blocks are written in: they are all the tags with the disabled blocks' tags left out |
| Backends.CompiledMembers | include/libremidi/backends.hpp:61-88 | a tag is compiled in exactly when some enabled feature block lists it (both directions) |
| Backends.Midi1Blocks | include/libremidi/backends.hpp:61-88 | the MIDI 1.0 feature blocks list exactly ALSA seq, ALSA raw, CoreMIDI, WinMM, UWP, WebMIDI and JACK, in that order |
| Backends.Midi1Backends | include/libremidi/backends.hpp:61-91 | the MIDI 1.0 catalog has at least one entry and ends with the dummy backend; no earlier entry is the dummy; every other entry is a MIDI 1.0 tag; with ALSA, ALSA seq and ALSA raw come first |
| Backends.Midi1Distinct | include/libremidi/backends.hpp:99-105 | no tag occurs twice in the MIDI 1.0 catalog, so the short-circuit lookup never hides a second match |
| Backends.Midi2Blocks | include/libremidi/backends.hpp:110-131 | the MIDI 2.0 feature blocks list exactly ALSA raw UMP, CoreMIDI UMP and Windows MIDI Services, in that order |
| Backends.Midi2Backends | include/libremidi/backends.hpp:110-134 | the MIDI 2.0 catalog has at least one entry and ends with the dummy backend; no earlier entry is the dummy; every other entry is a MIDI 2.0 tag; with ALSA and its UMP header, ALSA raw UMP comes first |
| Backends.Midi2Distinct | include/libremidi/backends.hpp:142-148 | no tag occurs twice in the MIDI 2.0 catalog |
| Backends.CatalogsInPriorityOrder | include/libremidi/backends.hpp:51-131 | each catalog lists its backends in the written priority order (e.g. ALSA seq, ALSA raw, CoreMIDI, WinMM, UWP, WebMIDI, JACK, then the dummy), with the backends not compiled in left out |
| Backends.CatalogMembers | include/libremidi/backends.hpp:61-131 | a tag is in a catalog exactly when it is the dummy tag or an enabled feature block lists it |
| Backends.ForAllBackends | include/libremidi/backends.hpp:93-97 | `f` is applied exactly once to each catalog entry, in catalog order |
| Backends.CommaFold | include/libremidi/backends.hpp:136-140 | the comma fold from an entry on visits every later entry once, in order |
| Backends.ForBackend | include/libremidi/backends.hpp:99-105 | `f` is applied at most once; not at all exactly when the tag is absent; otherwise to an entry with that tag and no earlier entry has it |
| Backends.OrFold | include/libremidi/backends.hpp:142-148 | the short-circuit fold from an entry on stops at the first entry with the tag, and visits nothing when no later entry has it |
| Backends.AnyForAllBackends | include/libremidi/backends.hpp:154-159 | every MIDI 1.0 entry is visited in order, then every MIDI 2.0 entry in order |
| Backends.ChainAll | include/libremidi/backends.hpp:154-159 | the chained sweep over two catalogs visits all of the first, then all of the second |
| Backends.AnyForBackend | include/libremidi/backends.hpp:161-166 | `f` is called once per catalog holding the tag, each time on the first entry of that catalog with the tag, the MIDI 1.0 call before the MIDI 2.0 one |
| Backends.ChainLookup | include/libremidi/backends.hpp:161-166 | the chained lookup makes one call per catalog holding the tag, on the first matching entry of that catalog, first catalog first |
| Backends.RegistryNeverEmpty | include/libremidi/backends.hpp:87-91 | the combined sweep visits at least two entries, among them both fallback entries, the last of each catalog, and both are the dummy backend |
| Backends.AnyForBackendCalls | include/libremidi/backends.hpp:161-166 | the combined lookup calls `f` twice exactly for the dummy tag, and at most once for any other tag |
| MidiInput.IgnoreFlags | include/libremidi/detail/midi_in.hpp:23-38 | the flag set decodes to exactly the three chosen categories and stays below 8 |
| MidiInput.IgnoreFlagsDecode | include/libremidi/detail/midi_in.hpp:23-38 | every flag set below 8 is the encoding of the categories it ignores (round trip) |
| MidiInput.InData.constructor | include/libremidi/detail/midi_in.hpp:56-63 | a fresh record has an empty message, flags 7 (all ignored), first message pending, no sysex in progress, a null backend pointer and an empty callback |
| MidiInput.InData.OnMessageReceived | include/libremidi/detail/midi_in.hpp:65-69 | called on the member assembly buffer with a non-empty callback slot (an empty one would throw): the installed callback is invoked exactly once with the buffered message, then the buffer's bytes are cleared and its timestamp kept |
| MidiInput.MidiInApi.constructor | include/libremidi/detail/midi_in.hpp:10-14 | the no-op callback is installed and the backend pointer stored, so the callback slot is non-empty from construction on |
| MidiInput.MidiInApi.IgnoreTypes | include/libremidi/detail/midi_in.hpp:23-38 | the flags become the encoding of the three choices whatever they were before; no other field changes, so a non-empty callback slot stays non-empty |
| MidiInput.MidiInApi.SetCallback | include/libremidi/detail/midi_in.hpp:41-47 | an empty callback installs the no-op one, any other is stored as given; the slot stays non-empty and no other field changes |
| MidiInput.MidiInApi.CancelCallback | include/libremidi/detail/midi_in.hpp:49-52 | the no-op callback is installed whatever was there, which keeps the slot non-empty and makes a second cancel change nothing; no other field changes |
| MidiInput.Dispatch | include/libremidi/detail/midi_in.hpp:65-69 | a delivery through an input API whose callback slot is non-empty invokes the installed callback exactly once with the assembled message, that callback is not the empty one and stays installed, and the buffer is left without bytes |
| MidiInput.DeliverAfterSetCallback | include/libremidi/detail/midi_in.hpp:41-69 | after `set_callback`, a delivered message reaches the given callback (or the no-op one for an empty callback) exactly once, and the buffer is left without bytes |
| JackHelpers.CheckPortNameLength | include/libremidi/backends/jack/config.hpp:43-53 | accepts exactly when the bytes of `client:port` plus its terminating NUL are fewer than the limit; a rejection raises `invalid_use_error`, an acceptance raises nothing |
| JackHelpers.GetPortName | include/libremidi/backends/jack/config.hpp:55-81 | a missing list gives the empty name and only a warning; a null entry at or before the index gives the empty name and `invalid_parameter_error` with the index; otherwise the entry at the index with no diagnostic; the scan reads only indices up to the index, and never past a null entry |
| ChunkedSend.ChunkWords | include/libremidi/backends/alsa_raw_ump/midi_out.hpp:106-116 | the chunk is at most the message size, fits both the buffer and the chunk limit in bytes, and is the largest such whole number of words unless capped by the message |
| ChunkedSend.WrittenAtMostSize | include/libremidi/backends/alsa_raw_ump/midi_out.hpp:143-175 | a send never writes past the end of the message |
| ChunkedSend.StopsAtFirstFailure | include/libremidi/backends/alsa_raw_ump/midi_out.hpp:140-172 | every step of a send but the last succeeded: nothing happens after a `wait` that returned false or a failed write |
| ChunkedSend.FailureIsFinal | include/libremidi/backends/alsa_raw_ump/midi_out.hpp:152-172 | a failed step is the last one; after a cancelled wait the device holds exactly the bytes the wait was told about; after a failed write it holds exactly the words before that write |
| ChunkedSend.WritesTile | include/libremidi/backends/alsa_raw_ump/midi_out.hpp:135-175 | the writes start at word 0 with one chunk, each starts where the previous ended and covers `min(size - offset, chunk)` words, all but the last succeeded, and the words written are the lengths of the successful writes |
| ChunkedSend.CompletedSendCoversMessage | include/libremidi/backends/alsa_raw_ump/midi_out.hpp:143-175 | a completed send's writes all succeeded, are contiguous from word 0 with no gap or overlap, and their lengths sum to the message size |
| ChunkedSend.WaitDiscipline | include/libremidi/backends/alsa_raw_ump/midi_out.hpp:145-158 | the first step writes one chunk; every wait follows a status query and reports 4 × the words written; back-off happens exactly while fewer than `chunk` words are free and lasts `(chunk - free) × 320` µs; pacing lasts the interval; each later write follows one successful pacing wait, and a pacing wait is followed only by a write |
| ChunkedSend.AllowedUnique | include/libremidi/backends/alsa_raw_ump/midi_out.hpp:130-176 | after any history at most one next step is possible |
| ChunkedSend.FinalIsMaximal | include/libremidi/backends/alsa_raw_ump/midi_out.hpp:130-176 | no step is possible once a send has stopped |
| ChunkedSend.LegalAgree | include/libremidi/backends/alsa_raw_ump/midi_out.hpp:130-176 | of two possible traces the shorter is a prefix of the longer |
| ChunkedSend.RunIsUnique | include/libremidi/backends/alsa_raw_ump/midi_out.hpp:130-176 | the answers of the device and of `wait` determine the whole run: two stopped traces are equal and have the same outcome |
| ChunkedSend.SingleChunkSend | include/libremidi/backends/alsa_raw_ump/midi_out.hpp:135-145 | a message that fits in one chunk is sent by exactly one write of the whole message and nothing else |
| ChunkedSend.ZeroChunkNeverAdvances | include/libremidi/backends/alsa_raw_ump/midi_out.hpp:115 | with a buffer or chunk limit below 4 bytes the chunk is 0 words and no word is ever written, so a non-empty message never completes |
| ChunkedSend.UnobstructedProgress | include/libremidi/backends/alsa_raw_ump/midi_out.hpp:145-175 | without obstruction there is never a back-off, and after `k` status queries at least `min(size, chunk × k)` words are written (one chunk more right after a write) |
| ChunkedSend.UnobstructedSendCompletes | include/libremidi/backends/alsa_raw_ump/midi_out.hpp:130-176 | when every wait lets the send go on, every write succeeds, every query reports room for a chunk, and enough queries are answered, a send with a non-zero chunk completes |
| AlsaRawUmpOut.MidiOut.constructor | include/libremidi/backends/alsa_raw_ump/midi_out.hpp:24-27 | a new output has no open port, no diagnostics and no closed handle |
| AlsaRawUmpOut.MidiOut.OpenVirtualPort | include/libremidi/backends/alsa_raw_ump/midi_out.hpp:37-41 | always fails, with the "unsupported" warning |
| AlsaRawUmpOut.MidiOut.SetClientName | include/libremidi/backends/alsa_raw_ump/midi_out.hpp:42-45 | only raises the "unsupported" warning |
| AlsaRawUmpOut.MidiOut.SetPortName | include/libremidi/backends/alsa_raw_ump/midi_out.hpp:46-49 | only raises the "unsupported" warning |
| AlsaRawUmpOut.MidiOut.ConnectPort | include/libremidi/backends/alsa_raw_ump/midi_out.hpp:51-62 | stores the driver's handle, returns its status, and raises `driver_error` exactly when the status is negative |
| AlsaRawUmpOut.MidiOut.OpenPort | include/libremidi/backends/alsa_raw_ump/midi_out.hpp:64-67 | succeeds exactly when the driver's status is 0, with the same handle and diagnostics as `connect_port` |
| AlsaRawUmpOut.MidiOut.ClosePort | include/libremidi/backends/alsa_raw_ump/midi_out.hpp:69-74 | leaves no port open and closes the native handle exactly when one was open |
| AlsaRawUmpOut.CloseTwice | include/libremidi/backends/alsa_raw_ump/midi_out.hpp:69-74 | closing twice closes the native handle at most once: the second close is a no-op |
| AlsaRawUmpOut.MidiOut.Write | include/libremidi/backends/alsa_raw_ump/midi_out.hpp:94-104 | returns the driver's result and raises `driver_error` exactly on failure |
| AlsaRawUmpOut.MidiOut.WaitForSpace | include/libremidi/backends/alsa_raw_ump/midi_out.hpp:145-158 | the polling and waiting keep the trace possible and write nothing; either the last step is a successful pacing wait after at least one new status query, or the send has stopped (cancelled, or out of status answers) |
| AlsaRawUmpOut.MidiOut.WriteChunked | include/libremidi/backends/alsa_raw_ump/midi_out.hpp:130-176 | the trace produced is possible and stopped, so every `ChunkedSend` lemma applies to it; a `driver_error` is raised exactly when the send ends on a failed write |
| AlsaRawUmpOut.MidiOut.SendUmp | include/libremidi/backends/alsa_raw_ump/midi_out.hpp:76-92 | without an open port `invalid_use_error` is raised and the send still goes ahead; without chunking or with at most 16 words it makes exactly one write of the whole message and no wait; otherwise it runs the chunked send |

## Left out

- Native calls: `snd_ump_open`, `snd_ump_write`, `snd_ump_close`, the `snd_rawmidi_params_*` buffer-size query and the `snd_rawmidi_status_*` free-space query. They are answers the caller supplies (`OpenAnswer`, `Oracle`), and the model records which handles were closed.
- JACK's `jack_port_name_size()` is the `nameSizeLimit` parameter. JACK's `jack_get_ports` list is an input.
- The sleeping inside the caller's `wait` and the `std::chrono` types: durations are whole microseconds, and only each call's arguments and boolean answer are modelled.
- AlsaRawUmpOut.MidiOut.WriteChunked: the device answers a finite list of status queries. A send still polling when the list runs out ends as `Unfinished`, standing for a send that has not returned yet. With endless "no room" answers the source polls and waits forever.
- AlsaRawUmpOut.MidiOut.Write: the model records the word count passed to `snd_ump_write` as the length of the write. How the driver interprets that argument is not part of the model.
- AlsaRawUmpOut.MidiOut.WriteChunked: `int len` holds at most 2^31 - 1 in the source, and message sizes, offsets and lengths are unbounded here. Messages of 2^31 words or more are outside the model.
- JackHelpers.GetPortName: the source compares a signed `int` counter with an `unsigned` index. An index of 2^31 or more (which needs a list that long) is outside the model.
- The destructor's automatic `close_port` is the same operation as `ClosePort`. It is not modelled separately.
- `get_current_api` (a constant tag) and `get_device_enumerator` (device enumeration outside these files) are not part of this model.
- Preprocessor feature detection: each `#if` test is one boolean of `Backends.Platform`. The JACK header test is folded into `jack`, and the `alsa/ump.h` and Windows MIDI Services header tests are separate booleans.
- Whether the error handler throws: errors and warnings are recorded as events and execution continues, as it does in the source when the handler does not throw.
- MidiInput.InData.OnMessageReceived: models the call that passes the record's own `message` buffer, as a backend does after assembling a message there. When another object is passed, the `clear()` through the reference empties that object and leaves the member buffer as it was; the model does not capture that case.
- `midi_in_default`'s "unsupported" warnings (include/libremidi/detail/midi_in.hpp:76-95) only concatenate the backend's name with a fixed text, so they are left out. Sysex assembly and ignore-flag filtering of incoming bytes live in backend files that are not part of this model; only the flag encoding is here.
- Concurrency: the `std::atomic` and thread plumbing, the semaphores and the `jack_ringbuffer_t` fields of `jack_out_data`, and the lack of locking around callback replacement.
- `connect_port` over an already open port overwrites the handle without closing it, as the source does. The model stores the new handle and records no close.
- Backends.Midi1Distinct, Backends.Midi2Distinct and Backends.AnyForBackendCalls rest on one assumption: each backend type's `API` member is its own enumerator. Those members are declared in backend headers that are not part of this model. If two backend types reported the same `API` value, `for_backend` would reach only the first of them, and `midi_any::for_backend` could call `f` twice for a tag other than the dummy one.
- JACK names are taken as the bytes of their encoding. How text is encoded into those bytes is not modelled.
