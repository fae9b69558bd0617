# raspi-mjpeg-viewer in Dafny

A model of the decision logic in `viewer.go`, an MJPEG kiosk viewer for a
gate camera on a Raspberry Pi. The viewer reads an MJPEG stream over HTTP, decodes each
JPEG part, shows it full screen and blanks the screen 15 seconds after the
last part. It also listens on a websocket and plays a sound for each message.
The model covers six pieces of that program, one Dafny module each, plus a
shared `Option` type:

- `Boundary` (`boundary.dfy`) is the clean-up of the multipart boundary
  parameter, `strings.Trim(boundary, "-")`, as pure functions with lemmas.
- `DoubleBuffer` (`double_buffer.dfy`) holds the package-level rasters
  `buf1` and `buf2` and `toPixbuf`. A class with two nullable references
  allocates both on the first call and swaps them on every call.
- `BufferPool` (`buffer_pool.dfy`) holds the `bytes.Buffer` values and the
  `sync.Pool` that recycles them. The pool is a multiset of buffers plus a
  count of the buffers its `New` function created.
- `FrameSource` (`frame_source.dfy`) is the producer goroutine
  `streamParts`, with its reconnecting outer loop and its inner loop.
  - The inner loop takes a buffer, fills it with one part and either hands
    it to the display loop or puts it back.
  - The HTTP request, the connection, the media-type parsing and the
    multipart reader are replaced by the outcome each had (an `Attempt`).
  - Whether the display loop was waiting to receive is an input of each part.
  - Every buffer is tracked through the pool, the producer and the display
    loop. The ownership predicate `Owned` says each buffer is in exactly one
    of those places.
- `NotifySource` (`notify_source.dfy`) is `streamNotifyOnce` and its retry
  loop `streamNotify`. Each read is replaced by what it observed: a message,
  a read error, or the context being done.
- `Screen` (`screen.dfy`) is the display loop in `main`: the
  "Connecting..." label, the image widget, the pixbuf it shows and the
  `blank` ticker. Its events are parts received (decoded or not) and time
  passing.
- `Wrappers` (`wrappers.dfy`) is the `Option` type.

Four facts about the code shape the model:

- The parts channel is unbuffered (viewer.go:104), so a part is delivered
  only if the display loop is already waiting to receive.
- `strings.Trim` removes hyphens at both ends of the boundary.
- The blank ticker is re-armed on every received part, before decoding
  (viewer.go:310), so a part that fails to decode also postpones blanking.
- The screen has only two visibility flags, label and image. Waiting for
  the first frame and being blanked look the same.

## Model

| member | source | states |
|---|---|---|
| Boundary.TrimLeft | viewer.go:144 | The result is a suffix of the input, everything dropped is a hyphen, and the result does not start with a hyphen. |
| Boundary.TrimRight | viewer.go:144 | The result is a prefix of the input, everything dropped is a hyphen, and the result does not end with a hyphen. |
| Boundary.Trim | viewer.go:144 | The trimmed boundary is no longer than the input and neither starts nor ends with '-'. |
| Boundary.TrimAllHyphens | viewer.go:144 | A boundary made only of hyphens trims to the empty string. |
| Boundary.TrimIsCore | viewer.go:144 | Whenever the input is a hyphen run, then a core that neither starts nor ends with '-', then a hyphen run, the result is exactly that core, so interior hyphens are kept. |
| Boundary.TrimSplits | viewer.go:144 | Every result is a slice of the input between a leading and a trailing run of hyphens. |
| Boundary.TrimUnchanged | viewer.go:144 | A boundary with no hyphen at either end is returned unchanged. |
| Boundary.TrimIdempotent | viewer.go:144 | Trimming twice gives the same as trimming once. |
| DoubleBuffer.Raster.constructor | viewer.go:59-76 | `newBufImage` gives a raster with the requested bounds and nothing drawn yet. |
| DoubleBuffer.Raster.Draw | viewer.go:90 | After `draw.Draw` with `draw.Src`, the raster holds the source image. |
| DoubleBuffer.RasterPair.constructor | viewer.go:78 | At start both globals are nil and no raster has been allocated. |
| DoubleBuffer.RasterPair.ToPixbuf | viewer.go:80-92 | (1) If a raster is missing, two fresh rasters with the bounds of this image are allocated; otherwise nothing is allocated. (2) The returned raster is the old `buf1`. The new `buf1` is the old `buf2`, with its pixels untouched. (3) The returned raster is the new `buf2` and holds the image. (4) The pair stays distinct. |
| DoubleBuffer.ThreeFrames | viewer.go:80-92 | Three consecutive calls, from any state: the first two return different rasters, the third returns the first one again, each holds its image, and exactly two rasters exist. |
| BufferPool.ByteBuffer.constructor | viewer.go:95-100 | The pool's `New` function makes an empty buffer. |
| BufferPool.ByteBuffer.Reset | viewer.go:154 | `Reset` empties the buffer. |
| BufferPool.ByteBuffer.ReadFrom | viewer.go:155 | `ReadFrom` appends the bytes read to the buffer. |
| BufferPool.Pool.constructor | viewer.go:94-101 | The pool starts empty and has created no buffer. |
| BufferPool.Pool.Get | viewer.go:153 | An empty pool creates one new empty buffer. Otherwise it removes and returns one of the buffers put back. |
| BufferPool.Pool.Put | viewer.go:157 | A buffer put back becomes available to `Get`, and nothing is created. |
| FrameSource.PauseSchedule | viewer.go:109-118 | The outer loop sleeps before attempt k exactly when k is not the first. |
| FrameSource.PartFates | viewer.go:161-165 | One fate per part. A part's buffer is sent exactly when the receiver waits, and otherwise put back. |
| FrameSource.PartsSentAreDelivered | viewer.go:153-165 | In one session, the number of buffers whose fate is "sent" equals the number of frames delivered. |
| FrameSource.SentAreDelivered | viewer.go:110-166 | Over a whole run of attempts, the number of buffers sent equals the number of frames delivered. Their contents and order are stated by `StreamParts`. |
| FrameSource.ReadersTrimmed | viewer.go:144 | No multipart reader is built with a boundary that starts or ends with '-'. |
| FrameSource.FailedConnectsEmitNothing | viewer.go:120-142 | Attempts that fail at the request, the connection or the media type take no buffer, deliver nothing and build no reader. |
| FrameSource.TakeFromPool | viewer.go:153 | Taking a buffer that was put back moves it from the pool to the producer, and it is not the buffer the display loop holds. |
| FrameSource.TakeNew | viewer.go:153 | A buffer created by `New` becomes one more owned buffer, held by the producer. |
| FrameSource.PutBack | viewer.go:157 | Putting the producer's buffer back moves it to the pool. |
| FrameSource.HandOver | viewer.go:161-162 | A send moves the producer's buffer to the display loop, and the display loop's previous buffer to the pool. |
| FrameSource.EmptyPoolHoldsOne | viewer.go:94-101 | When the pool is empty, at most one buffer exists: the one the display loop holds. |
| FrameSource.FramePipeline.constructor | viewer.go:94-104 | The pipeline starts with an empty pool, nothing held and nothing delivered. |
| FrameSource.FramePipeline.Take | viewer.go:153-154 | The producer gets an empty buffer that it alone owns. The buffer is created only when the pool is empty. |
| FrameSource.FramePipeline.Fill | viewer.go:155 | Reading into the taken buffer changes only that buffer. |
| FrameSource.FramePipeline.Offer | viewer.go:161-165 | (1) The send succeeds exactly when the receiver waits. (2) On success the display loop's previous buffer goes back to the pool, the new one is held, and its contents are appended to the delivered frames. (3) Otherwise the buffer goes back to the pool and nothing is delivered. |
| FrameSource.FramePipeline.Discard | viewer.go:157 | The producer's buffer goes back to the pool, and ownership stays exact. |
| FrameSource.FramePipeline.OfferPart | viewer.go:153-165 | For a part read completely, the fate is "sent" exactly when the receiver waits, and only then are the part's bytes delivered. |
| FrameSource.FramePipeline.DiscardPartial | viewer.go:153-159 | After a failed `ReadFrom` the buffer is put back, nothing is delivered, and the display loop's buffer is untouched. |
| FrameSource.FramePipeline.RunSession | viewer.go:147-166 | A session's fates and delivered frames are those its parts specify, with one more put-back if a read fails. Ownership stays exact and at most two buffers exist. |
| FrameSource.FramePipeline.RunAttempt | viewer.go:120-146 | A failed request, connection or media type does nothing more. A session builds one reader with the trimmed boundary and runs the inner loop. |
| FrameSource.FramePipeline.StreamParts | viewer.go:103-170 | (1) Pauses follow `PauseSchedule`. (2) The readers get the trimmed boundaries. (3) Every buffer taken meets the fate `Fates` gives. (4) The delivered frames are `Delivered(attempts)`, in order and byte for byte; every buffer is in exactly one place, and at most two are ever created. |
| NotifySource.MessagesRead | viewer.go:216-222 | The count is the length of the longest run of messages at the start of the reads. |
| NotifySource.NotifyOnce | viewer.go:188-225 | A failed dial is an error and notifies nothing. Otherwise there is one notification per message read, until the first read error (an error) or the context being done (nil). |
| NotifySource.StreamNotify | viewer.go:227-242 | (1) It pauses after exactly the attempts that returned an error, and every attempt but the last returned one. (2) The loop stops only at an attempt that returned nil or was still reading. (3) The notifications are the sum over the attempts made. |
| Screen.Display.constructor | viewer.go:292-303 | At start the label is visible, the image is hidden and empty, no raster exists, and the ticker period is one second. |
| Screen.Display.OnPart | viewer.go:309-332 | (1) Every received part re-arms the ticker to 15 s. (2) A failed decode changes nothing else: the visibility flags, the raster shown and both rasters' pixels stay as they were. (3) A decoded part hides the label and shows the image, set to the raster `toPixbuf` returned. That raster holds the frame and differs from the raster shown before, whose pixels are untouched. |
| Screen.Display.OnTick | viewer.go:334-338 | A tick hides the image and shows the label. |
| Screen.Display.Advance | viewer.go:303 | (1) The ticker fires exactly when its remaining time runs out, keeps its phase, and the tick hides the image. (2) Without a tick, visibility is unchanged. (3) Exactly one widget stays visible, and the image is never visible 15 s after the last part. |
| Screen.Display.Run | viewer.go:305-344 | Over any sequence of events, exactly one widget is visible after each one. The blanking invariant holds throughout. The ticks handled number at most the `Elapsed` events. |
| Screen.IdleScenario | viewer.go:172 | Frames at 0 s and 5 s: no tick before 20 s, the image widget still shows that frame at 19 s, and the screen blanks at 20 s. |
| Screen.UndecodableKeepsFrame | viewer.go:309-324 | A frame at 0 s and an undecodable part at 10 s: there is no tick, and the image widget still shows the frame decoded at 0 s at 24 s. |

## Left out

- HTTP and multipart parsing are not modelled. The HTTP request, the transport, `client.Do`, `mime.ParseMediaType`, `multipart.Reader.NextPart` and the byte stream of a part are library calls. The model takes their outcomes as an input.
- The websocket side is not modelled: the dial, the ping goroutine and its ticker, the pong handler and the read deadlines. They are network timing; each read is reduced to what it returned.
- JPEG decoding and `draw.Draw` are foreign calls. Decoding is an `Option<Image>`, and a draw records the image in the raster. Scaling, clipping to the raster bounds and the pixel layout are not modelled.
- Nothing of GTK/GDK is modelled except the two visibility flags and the pixbuf shown. This covers widget construction, fonts, window sizing, the thread locks and `gtk.Main`.
- `window.ShowAll()` (viewer.go:348) is left out with the rest of GTK. It makes the hidden image widget visible, so both widgets are visible until the first tick or the first decoded frame. A first part that fails to decode before the first one-second tick keeps both visible for 15 s. The model, and its "exactly one widget visible" invariant, start from the widget states set at viewer.go:292-299.
- Concurrency is modelled sequentially. Goroutines, `sync.WaitGroup` and real channel semantics are not modelled.
  - The handoff is one step whose "receiver waiting" is an input.
  - The display loop's `bufPool.Put(b)` (viewer.go:320) is placed right before it takes the next buffer. It always runs between receives.
- `sync.Pool` is modelled without eviction. A real `Get` may ignore the buffers put back (after a garbage collection, or when they sit in another processor's slot) and call `New`, so the bound of two buffers holds only for the model.
- Shutdown is not modelled. The context is `context.Background()` and is never cancelled, so `streamParts` loops forever. No termination is modelled, and `wg.Wait()` is left out. For `streamNotifyOnce`, the context check is a possible read outcome so that its nil return path is covered.
- The display loop's `case <-ctx.Done()` branch is left out for the same reason.
- Durations are plain naturals in nanoseconds. The time spent inside a sleep is not modelled; only whether the loop sleeps at that point is modelled.
- Screen.Display.Advance: the Go ticker's one-slot channel is not modelled. A tick still pending when `Reset` is called could be delivered once after a part arrives. The model treats a tick as delivered at the moment it falls due, and collapses the ticks inside one time step into one.
- Screen.Display.Run states only that exactly one widget is visible and that the display invariant holds after the events. It does not state the sequence of screen states; `OnPart` and `Advance` state each step.
- `loadConfig`, `disableBlanking`, the notify-sound goroutine (`aplay`), logging and button.py are I/O with no decision logic worth modelling.
