/** The bookkeeping of draw(): the frame cursor that cycles through the frame slots,
    the table that records which slot's fence last claimed each swapchain image, the
    resize flag, and the branching on the results of image acquisition, queue
    submission and presentation. One call of draw() is one Tick of this module; the
    GPU itself is not modelled, only the fence waits, fence resets, submissions and
    presentations the CPU issues, which are kept as logs. */
module FramePacing {
  import opened Vk

  const MAX_FRAMES_IN_FLIGHT: nat := 2

  type Fence = Handle
  type Semaphore = Handle

  /** What the device answers during one draw() call: the acquire result and the
      image index it hands out, whether vkQueueSubmit succeeds, the present result. */
  datatype DrawInput = DrawInput(acquire: VkResult, imageIndex: nat, submitOk: bool, present: VkResult)

  /** One pass of the main loop: whether the glfwPollEvents call before draw() ran the
      framebuffer-resize callback, and the device's answers during that draw() call. */
  datatype LoopInput = LoopInput(resizeEvent: bool, draw: DrawInput)

  /** The three runtime_errors draw() can throw. */
  datatype DrawError = AcquireFailed | SubmitFailed | PresentFailed

  /** How one draw() call ends: it rebuilt the swapchain right after acquisition and
      returned early; it presented (and rebuilt afterwards when `rebuilt`); or it threw. */
  datatype DrawOutcome = RebuiltOnAcquire | Presented(rebuilt: bool) | Failed(error: DrawError)

  /** The outcomes after which draw() has called recreate_swapchain. */
  predicate Rebuilds(o: DrawOutcome) {
    o == RebuiltOnAcquire || o == Presented(true)
  }

  /** One vkQueueSubmit: the command buffer of an image, gated on the slot's
      image-available semaphore, signalling its render-finished semaphore and fence. */
  datatype Submission = Submission(commandBufferIndex: nat, waitSemaphore: Semaphore, signalSemaphore: Semaphore, fence: Fence)

  /** One vkQueuePresentKHR: the image index, gated on a render-finished semaphore. */
  datatype Presentation = Presentation(imageIndex: nat, waitSemaphore: Semaphore)

  /** The per-slot synchronisation objects made by create_sync. */
  datatype SyncObjects = SyncObjects(imageAvailable: seq<Semaphore>, renderFinished: seq<Semaphore>, inFlightFences: seq<Fence>)

  /** The state draw() reads and changes. `signaled` is the set of fences the CPU
      knows to be signalled; `waits`, `submissions` and `presentations` log, in order,
      the fence waits, queue submissions and presentation requests issued. */
  datatype FrameState = FrameState(
    currentFrame: nat,
    framebufferResized: bool,
    imagesInFlight: seq<Option<Fence>>,
    signaled: set<Fence>,
    waits: seq<Fence>,
    submissions: seq<Submission>,
    presentations: seq<Presentation>)

  predicate SyncValid(sync: SyncObjects) {
    |sync.imageAvailable| == MAX_FRAMES_IN_FLIGHT &&
    |sync.renderFinished| == MAX_FRAMES_IN_FLIGHT &&
    |sync.inFlightFences| == MAX_FRAMES_IN_FLIGHT
  }

  /** Every image that is claimed is claimed by one of the slot fences. */
  predicate OwnersAreSlotFences(s: FrameState, sync: SyncObjects) {
    forall i :: 0 <= i < |s.imagesInFlight| && s.imagesInFlight[i].Some? ==>
      s.imagesInFlight[i].value in sync.inFlightFences
  }

  /** What a draw() call needs to index the slot arrays: the cursor names a slot. */
  predicate CursorValid(s: FrameState, sync: SyncObjects) {
    SyncValid(sync) && s.currentFrame < MAX_FRAMES_IN_FLIGHT
  }

  predicate FrameValid(s: FrameState, sync: SyncObjects) {
    CursorValid(s, sync) && OwnersAreSlotFences(s, sync)
  }

  /** The acquire results after which draw() goes on to render. */
  predicate Acquired(r: VkResult) {
    r == Success || r == Suboptimal
  }

  /** The acquired index lies inside images_in_flight (n entries); indexing outside
      it is undefined behaviour in the source. */
  predicate IndexFits(n: nat, input: DrawInput) {
    Acquired(input.acquire) ==> input.imageIndex < n
  }

  /** vkWaitForFences with an infinite timeout: logged, and the fence is known to be
      signalled once the wait returns. */
  function WaitFor(s: FrameState, f: Fence): FrameState {
    s.(waits := s.waits + [f], signaled := s.signaled + {f})
  }

  function NextFrame(frame: nat): nat {
    (frame + 1) % MAX_FRAMES_IN_FLIGHT
  }

  function SubmissionFor(sync: SyncObjects, slot: nat, imageIndex: nat): Submission
    requires SyncValid(sync) && slot < MAX_FRAMES_IN_FLIGHT
  {
    Submission(imageIndex, sync.imageAvailable[slot], sync.renderFinished[slot], sync.inFlightFences[slot])
  }

  /** One call of draw(). */
  function Tick(s: FrameState, sync: SyncObjects, input: DrawInput): (r: (DrawOutcome, FrameState))
    requires CursorValid(s, sync) && IndexFits(|s.imagesInFlight|, input)
    ensures CursorValid(r.1, sync)
    ensures |r.1.imagesInFlight| == |s.imagesInFlight|
  {
    var slot := s.currentFrame;
    var fence := sync.inFlightFences[slot];
    var s1 := WaitFor(s, fence);
    if input.acquire == OutOfDate then (RebuiltOnAcquire, s1)
    else if !Acquired(input.acquire) then (Failed(AcquireFailed), s1)
    else
      var idx := input.imageIndex;
      var s2 := if s1.imagesInFlight[idx].Some? then WaitFor(s1, s1.imagesInFlight[idx].value) else s1;
      var s3 := s2.(imagesInFlight := s2.imagesInFlight[idx := Some(fence)], signaled := s2.signaled - {fence});
      if !input.submitOk then (Failed(SubmitFailed), s3)
      else
        var s4 := s3.(submissions := s3.submissions + [SubmissionFor(sync, slot, idx)],
                      presentations := s3.presentations + [Presentation(idx, sync.renderFinished[slot])]);
        if input.present == OutOfDate || input.present == Suboptimal || s4.framebufferResized then
          (Presented(true), s4.(framebufferResized := false, currentFrame := NextFrame(slot)))
        else if input.present != Success then (Failed(PresentFailed), s4)
        else (Presented(false), s4.(currentFrame := NextFrame(slot)))
  }

  // ---------------------------------------------------------------- single ticks

  /** Every tick first waits on the current slot's fence. An out-of-date acquisition
      then ends the tick: the cursor, the ownership table, the resize flag and the
      submission and presentation logs are left as they were. */
  lemma AcquireOutOfDateLeavesFrame(s: FrameState, sync: SyncObjects, input: DrawInput)
    requires CursorValid(s, sync) && input.acquire == OutOfDate
    ensures var r := Tick(s, sync, input);
      r.0 == RebuiltOnAcquire &&
      r.1.currentFrame == s.currentFrame &&
      r.1.imagesInFlight == s.imagesInFlight &&
      r.1.framebufferResized == s.framebufferResized &&
      r.1.submissions == s.submissions && r.1.presentations == s.presentations &&
      r.1.waits == s.waits + [sync.inFlightFences[s.currentFrame]]
  {
  }

  /** After a successful or suboptimal acquisition the image is claimed for the
      current slot's fence, and the tick waits on the image's previous owner whenever
      it has one, even when that is the current slot's own fence. The slot's fence is
      reset before the submission. */
  lemma AcquireClaimsImage(s: FrameState, sync: SyncObjects, input: DrawInput)
    requires CursorValid(s, sync) && Acquired(input.acquire) && input.imageIndex < |s.imagesInFlight|
    ensures var r := Tick(s, sync, input);
      var fence := sync.inFlightFences[s.currentFrame];
      var owner := s.imagesInFlight[input.imageIndex];
      r.1.imagesInFlight == s.imagesInFlight[input.imageIndex := Some(fence)] &&
      r.1.waits == s.waits + [fence] + (if owner.Some? then [owner.value] else []) &&
      fence !in r.1.signaled &&
      (forall f :: f in r.1.signaled <==> f != fence && (f in s.signaled || owner == Some(f)))
  {
  }

  /** Exactly which ticks present: those that acquired an image and submitted, except
      when presentation fails while no resize is pending. A presenting tick rebuilds
      exactly when the presentation was out of date or suboptimal or a resize was
      pending; it then clears the resize flag. Either way the cursor advances to the
      next slot and stays in range. */
  lemma PresentingTicks(s: FrameState, sync: SyncObjects, input: DrawInput)
    requires CursorValid(s, sync) && IndexFits(|s.imagesInFlight|, input)
    ensures var r := Tick(s, sync, input);
      (r.0.Presented? <==> Acquired(input.acquire) && input.submitOk &&
                           (input.present != OtherError || s.framebufferResized)) &&
      (r.0.Presented? ==>
         (r.0.rebuilt <==> input.present == OutOfDate || input.present == Suboptimal || s.framebufferResized) &&
         (r.0.rebuilt ==> !r.1.framebufferResized) &&
         r.1.currentFrame == (s.currentFrame + 1) % MAX_FRAMES_IN_FLIGHT &&
         r.1.currentFrame < MAX_FRAMES_IN_FLIGHT &&
         r.1.submissions == s.submissions + [SubmissionFor(sync, s.currentFrame, input.imageIndex)] &&
         r.1.presentations == s.presentations + [Presentation(input.imageIndex, sync.renderFinished[s.currentFrame])])
  {
  }

  /** Exactly which ticks throw, and that a throwing tick never advances the cursor.
      A pending resize turns a failed presentation into a rebuild. */
  lemma FailingTicks(s: FrameState, sync: SyncObjects, input: DrawInput)
    requires CursorValid(s, sync) && IndexFits(|s.imagesInFlight|, input)
    ensures var r := Tick(s, sync, input);
      (r.0 == Failed(AcquireFailed) <==> input.acquire == OtherError) &&
      (r.0 == Failed(SubmitFailed) <==> Acquired(input.acquire) && !input.submitOk) &&
      (r.0 == Failed(PresentFailed) <==> Acquired(input.acquire) && input.submitOk &&
                                         input.present == OtherError && !s.framebufferResized) &&
      (r.0.Failed? ==> r.1.currentFrame == s.currentFrame)
  {
  }

  // ---------------------------------------------------------------- ownership

  /** The fence of the most recent submission that rendered into image i. */
  function LastFenceFor(log: seq<Submission>, i: nat): (r: Option<Fence>)
    ensures r.Some? ==> exists k :: 0 <= k < |log| && log[k].commandBufferIndex == i && log[k].fence == r.value &&
                                  forall j :: k < j < |log| ==> log[j].commandBufferIndex != i
    ensures r.None? <==> forall k :: 0 <= k < |log| ==> log[k].commandBufferIndex != i
  {
    if log == [] then None
    else if log[|log| - 1].commandBufferIndex == i then Some(log[|log| - 1].fence)
    else
      var r := LastFenceFor(log[..|log| - 1], i);
      assert forall k :: 0 <= k < |log| - 1 ==> log[..|log| - 1][k] == log[k];
      r
  }

  lemma LastFenceAfterSubmit(log: seq<Submission>, sub: Submission, i: nat)
    ensures LastFenceFor(log + [sub], i) == if sub.commandBufferIndex == i then Some(sub.fence) else LastFenceFor(log, i)
  {
    assert (log + [sub])[..|log|] == log;
  }

  /** The meaning of images_in_flight: each entry is the fence of the latest
      submission that rendered into that image, or null if there was none. */
  predicate OwnershipMatchesLog(s: FrameState) {
    forall i :: 0 <= i < |s.imagesInFlight| ==> s.imagesInFlight[i] == LastFenceFor(s.submissions, i)
  }

  /** The frame state create_sync leaves in a newly constructed application: cursor
      0, no resize pending, one null entry in images_in_flight per image, exactly the
      slot fences signalled, and nothing waited on, submitted or presented yet. */
  function InitialFrame(imageCount: nat, fences: seq<Fence>): FrameState {
    FrameState(0, false, seq(imageCount, _ => None), set f | f in fences, [], [], [])
  }

  /** Drawing may start from that state: it meets both invariants. */
  lemma InitialFrameValid(imageCount: nat, sync: SyncObjects)
    requires SyncValid(sync)
    ensures FrameValid(InitialFrame(imageCount, sync.inFlightFences), sync)
    ensures OwnershipMatchesLog(InitialFrame(imageCount, sync.inFlightFences))
  {
  }

  /** Every tick keeps images_in_flight free of foreign fences: the only fence it
      writes into the table is the current slot's. */
  lemma TickKeepsSlotOwners(s: FrameState, sync: SyncObjects, input: DrawInput)
    requires FrameValid(s, sync) && IndexFits(|s.imagesInFlight|, input)
    ensures FrameValid(Tick(s, sync, input).1, sync)
  {
  }

  /** Every tick that does not throw keeps that meaning. */
  lemma TickKeepsOwnershipLog(s: FrameState, sync: SyncObjects, input: DrawInput)
    requires CursorValid(s, sync) && IndexFits(|s.imagesInFlight|, input) && OwnershipMatchesLog(s)
    ensures !Tick(s, sync, input).0.Failed? ==> OwnershipMatchesLog(Tick(s, sync, input).1)
  {
    var r := Tick(s, sync, input);
    if Acquired(input.acquire) && input.submitOk {
      var sub := SubmissionFor(sync, s.currentFrame, input.imageIndex);
      assert r.1.submissions == s.submissions + [sub];
      forall i | 0 <= i < |r.1.imagesInFlight|
        ensures r.1.imagesInFlight[i] == LastFenceFor(r.1.submissions, i)
      {
        LastFenceAfterSubmit(s.submissions, sub, i);
      }
    }
  }

  /** So the ownership wait of a tick is on the fence of the latest submission that
      rendered into the acquired image: the CPU does not reuse an image while the GPU
      may still be drawing into it for an older frame. */
  lemma OwnerWaitIsLastSubmission(s: FrameState, sync: SyncObjects, input: DrawInput)
    requires CursorValid(s, sync) && OwnershipMatchesLog(s)
    requires Acquired(input.acquire) && input.imageIndex < |s.imagesInFlight|
    ensures var last := LastFenceFor(s.submissions, input.imageIndex);
      Tick(s, sync, input).1.waits ==
        s.waits + [sync.inFlightFences[s.currentFrame]] + (if last.Some? then [last.value] else [])
  {
    AcquireClaimsImage(s, sync, input);
  }

  // ---------------------------------------------------------------- runs of ticks

  /** The slot a tick started in and how it ended. */
  datatype TickRecord = TickRecord(frame: nat, outcome: DrawOutcome)

  /** glfwPollEvents: a delivered resize event runs framebuf_resize_cb, which raises
      the resize flag; nothing else in the frame state changes. */
  function PollEvents(s: FrameState, resizeEvent: bool): FrameState {
    s.(framebufferResized := resizeEvent || s.framebufferResized)
  }

  /** The main loop: poll events, then draw(), once per input, stopping at the first
      call that throws (the exception ends the program). */
  function Run(s: FrameState, sync: SyncObjects, inputs: seq<LoopInput>): (r: (seq<TickRecord>, FrameState))
    requires CursorValid(s, sync)
    requires forall input <- inputs :: IndexFits(|s.imagesInFlight|, input.draw)
    ensures CursorValid(r.1, sync)
    ensures |r.1.imagesInFlight| == |s.imagesInFlight|
    ensures 0 < |inputs| ==> 0 < |r.0| <= |inputs|
    ensures |r.0| <= |inputs|
    ensures forall k :: 0 <= k < |r.0| ==> r.0[k].frame < MAX_FRAMES_IN_FLIGHT
    decreases |inputs|
  {
    if inputs == [] then ([], s)
    else
      var t := Tick(PollEvents(s, inputs[0].resizeEvent), sync, inputs[0].draw);
      var rec := TickRecord(s.currentFrame, t.0);
      if t.0.Failed? then ([rec], t.1)
      else
        var rest := Run(t.1, sync, inputs[1..]);
        ([rec] + rest.0, rest.1)
  }

  /** One step of the main loop when the first call does not throw. */
  lemma RunStep(s: FrameState, sync: SyncObjects, inputs: seq<LoopInput>)
    requires CursorValid(s, sync)
    requires forall input <- inputs :: IndexFits(|s.imagesInFlight|, input.draw)
    requires inputs != [] && !Tick(PollEvents(s, inputs[0].resizeEvent), sync, inputs[0].draw).0.Failed?
    ensures var t := Tick(PollEvents(s, inputs[0].resizeEvent), sync, inputs[0].draw);
      var rest := Run(t.1, sync, inputs[1..]);
      Run(s, sync, inputs) == ([TickRecord(s.currentFrame, t.0)] + rest.0, rest.1)
  {
  }

  /** A run in which no call throws keeps the meaning of images_in_flight. */
  lemma {:induction false} RunKeepsOwnershipLog(s: FrameState, sync: SyncObjects, inputs: seq<LoopInput>)
    requires CursorValid(s, sync) && OwnershipMatchesLog(s)
    requires forall input <- inputs :: IndexFits(|s.imagesInFlight|, input.draw)
    requires forall k :: 0 <= k < |Run(s, sync, inputs).0| ==> !Run(s, sync, inputs).0[k].outcome.Failed?
    ensures OwnershipMatchesLog(Run(s, sync, inputs).1)
    decreases |inputs|
  {
    if inputs != [] {
      var polled := PollEvents(s, inputs[0].resizeEvent);
      var t := Tick(polled, sync, inputs[0].draw);
      TickKeepsOwnershipLog(polled, sync, inputs[0].draw);
      assert Run(s, sync, inputs).0[0].outcome == t.0;
      if !t.0.Failed? {
        RunStep(s, sync, inputs);
        var rest := Run(t.1, sync, inputs[1..]);
        assert forall k :: 0 <= k < |rest.0| ==> rest.0[k] == Run(s, sync, inputs).0[k + 1];
        RunKeepsOwnershipLog(t.1, sync, inputs[1..]);
      }
    }
  }

  /** A draw() call in which acquisition, submission and presentation all succeed,
      possibly suboptimally or out of date at presentation. */
  predicate NonFailing(input: DrawInput) {
    Acquired(input.acquire) && input.submitOk && input.present != OtherError
  }

  /** What a non-failing call does to the cursor, the resize flag and the log. */
  lemma NonFailingTick(s: FrameState, sync: SyncObjects, input: DrawInput)
    requires CursorValid(s, sync) && NonFailing(input) && input.imageIndex < |s.imagesInFlight|
    ensures var t := Tick(s, sync, input);
      t.0 == Presented(input.present != Success || s.framebufferResized) &&
      t.1.currentFrame == (s.currentFrame + 1) % MAX_FRAMES_IN_FLIGHT &&
      !t.1.framebufferResized &&
      t.1.submissions == s.submissions + [SubmissionFor(sync, s.currentFrame, input.imageIndex)]
  {
  }

  /** Arithmetic step used by SlotAfterCycles. */
  lemma CursorStep(c: nat, k: nat)
    requires 0 < k
    ensures ((c + 1) % MAX_FRAMES_IN_FLIGHT + (k - 1)) % MAX_FRAMES_IN_FLIGHT == (c + k) % MAX_FRAMES_IN_FLIGHT
  {
  }

  /** The slot the cursor is in after k advances from slot c. */
  function SlotAfter(c: nat, k: nat): (r: nat)
    requires c < MAX_FRAMES_IN_FLIGHT
    ensures r < MAX_FRAMES_IN_FLIGHT
    decreases k
  {
    if k == 0 then c else SlotAfter(NextFrame(c), k - 1)
  }

  /** The cursor cycles through the slots: k advances from slot c lead to slot
      (c + k) mod MAX_FRAMES_IN_FLIGHT. */
  lemma {:induction false} SlotAfterCycles(c: nat, k: nat)
    requires c < MAX_FRAMES_IN_FLIGHT
    ensures SlotAfter(c, k) == (c + k) % MAX_FRAMES_IN_FLIGHT
    decreases k
  {
    if k > 0 {
      SlotAfterCycles(NextFrame(c), k - 1);
      CursorStep(c, k);
    }
  }

  /** One step of a run of non-failing calls: the first call presents, advances the
      cursor, clears the flag and logs its submission, and the rest of the run starts
      from the state it leaves. */
  lemma NonFailingRunStep(s: FrameState, sync: SyncObjects, inputs: seq<LoopInput>)
    requires CursorValid(s, sync) && inputs != []
    requires forall input <- inputs :: NonFailing(input.draw) && input.draw.imageIndex < |s.imagesInFlight|
    ensures var t := Tick(PollEvents(s, inputs[0].resizeEvent), sync, inputs[0].draw);
      var rest := Run(t.1, sync, inputs[1..]);
      CursorValid(t.1, sync) && t.1.currentFrame == NextFrame(s.currentFrame) && !t.1.framebufferResized &&
      t.1.submissions == s.submissions + [SubmissionFor(sync, s.currentFrame, inputs[0].draw.imageIndex)] &&
      (forall input <- inputs[1..] :: NonFailing(input.draw) && input.draw.imageIndex < |t.1.imagesInFlight|) &&
      Run(s, sync, inputs) ==
        ([TickRecord(s.currentFrame, Presented(inputs[0].draw.present != Success || inputs[0].resizeEvent || s.framebufferResized))] + rest.0,
         rest.1)
  {
    var polled := PollEvents(s, inputs[0].resizeEvent);
    var t := Tick(polled, sync, inputs[0].draw);
    NonFailingTick(polled, sync, inputs[0].draw);
    assert t.0 == Presented(inputs[0].draw.present != Success || inputs[0].resizeEvent || s.framebufferResized);
    assert t.1.currentFrame == NextFrame(s.currentFrame);
    assert forall input <- inputs[1..] :: NonFailing(input.draw) && input.draw.imageIndex < |t.1.imagesInFlight|;
    RunStep(s, sync, inputs);
  }

  /** In a run of non-failing calls every call runs to completion and the k-th call
      uses the slot k advances after the starting one (by SlotAfterCycles, slot
      (c + k) mod 2 from starting slot c); the cursor ends |inputs| advances on. */
  lemma {:induction false} NonFailingRunFrames(s: FrameState, sync: SyncObjects, inputs: seq<LoopInput>)
    requires CursorValid(s, sync)
    requires forall input <- inputs :: NonFailing(input.draw) && input.draw.imageIndex < |s.imagesInFlight|
    ensures var r := Run(s, sync, inputs);
      |r.0| == |inputs| &&
      (forall k :: 0 <= k < |inputs| ==> r.0[k].frame == SlotAfter(s.currentFrame, k)) &&
      r.1.currentFrame == SlotAfter(s.currentFrame, |inputs|)
    decreases |inputs|
  {
    if inputs != [] {
      var polled := PollEvents(s, inputs[0].resizeEvent);
      var t := Tick(polled, sync, inputs[0].draw);
      NonFailingRunStep(s, sync, inputs);
      NonFailingRunFrames(t.1, sync, inputs[1..]);
    }
    forall k | 0 <= k < |inputs|
      ensures Run(s, sync, inputs).0[k].frame == SlotAfter(s.currentFrame, k)
    {
      NonFailingRunFrameAt(s, sync, inputs, k);
    }
  }

  /** The k-th call of a run of non-failing calls uses the slot k advances after the
      starting one. */
  lemma {:induction false} NonFailingRunFrameAt(s: FrameState, sync: SyncObjects, inputs: seq<LoopInput>, k: nat)
    requires CursorValid(s, sync) && k < |inputs|
    requires forall input <- inputs :: NonFailing(input.draw) && input.draw.imageIndex < |s.imagesInFlight|
    ensures k < |Run(s, sync, inputs).0| && Run(s, sync, inputs).0[k].frame == SlotAfter(s.currentFrame, k)
    decreases k
  {
    var t := Tick(PollEvents(s, inputs[0].resizeEvent), sync, inputs[0].draw);
    NonFailingRunStep(s, sync, inputs);
    if k > 0 {
      NonFailingRunFrameAt(t.1, sync, inputs[1..], k - 1);
    }
  }

  /** In a run of non-failing calls every call presents, and it rebuilds exactly when
      its presentation was not a plain success or the resize flag was up when it began:
      raised by a resize event in the poll just before it, or, for the first call, left
      pending from before the run. */
  lemma {:induction false} NonFailingRunOutcomes(s: FrameState, sync: SyncObjects, inputs: seq<LoopInput>)
    requires CursorValid(s, sync)
    requires forall input <- inputs :: NonFailing(input.draw) && input.draw.imageIndex < |s.imagesInFlight|
    ensures var r := Run(s, sync, inputs);
      |r.0| == |inputs| &&
      (0 < |inputs| ==>
         r.0[0].outcome == Presented(inputs[0].draw.present != Success || inputs[0].resizeEvent || s.framebufferResized)) &&
      (forall k :: 0 < k < |inputs| ==>
         r.0[k].outcome == Presented(inputs[k].draw.present != Success || inputs[k].resizeEvent))
    decreases |inputs|
  {
    if inputs != [] {
      var polled := PollEvents(s, inputs[0].resizeEvent);
      var t := Tick(polled, sync, inputs[0].draw);
      NonFailingRunStep(s, sync, inputs);
      NonFailingRunOutcomes(t.1, sync, inputs[1..]);
      var rest := Run(t.1, sync, inputs[1..]);
      var r := Run(s, sync, inputs);
      forall k | 0 < k < |inputs|
        ensures r.0[k].outcome == Presented(inputs[k].draw.present != Success || inputs[k].resizeEvent)
      {
        assert r.0[k] == rest.0[k - 1];
        assert inputs[1..][k - 1] == inputs[k];
      }
    }
  }

  /** The submissions a run of non-failing calls makes, starting in slot c. */
  function Submitted(sync: SyncObjects, c: nat, inputs: seq<LoopInput>): (r: seq<Submission>)
    requires SyncValid(sync) && c < MAX_FRAMES_IN_FLIGHT
    ensures |r| == |inputs|
    decreases |inputs|
  {
    if inputs == [] then []
    else [SubmissionFor(sync, c, inputs[0].draw.imageIndex)] + Submitted(sync, NextFrame(c), inputs[1..])
  }

  /** The k-th of those submissions is the acquired image's command buffer, with the
      semaphores and fence of the slot k advances after c. */
  lemma {:induction false} SubmittedAt(sync: SyncObjects, c: nat, inputs: seq<LoopInput>, k: nat)
    requires SyncValid(sync) && c < MAX_FRAMES_IN_FLIGHT && k < |inputs|
    ensures Submitted(sync, c, inputs)[k] == SubmissionFor(sync, SlotAfter(c, k), inputs[k].draw.imageIndex)
    decreases k
  {
    if k > 0 {
      SubmittedAt(sync, NextFrame(c), inputs[1..], k - 1);
    }
  }

  lemma AppendAfterOne<T>(a: seq<T>, x: T, b: seq<T>)
    ensures (a + [x]) + b == a + ([x] + b)
  {
  }

  /** A run of non-failing calls appends exactly those submissions to the log. */
  lemma {:induction false} NonFailingRunSubmissions(s: FrameState, sync: SyncObjects, inputs: seq<LoopInput>)
    requires CursorValid(s, sync)
    requires forall input <- inputs :: NonFailing(input.draw) && input.draw.imageIndex < |s.imagesInFlight|
    ensures Run(s, sync, inputs).1.submissions == s.submissions + Submitted(sync, s.currentFrame, inputs)
    decreases |inputs|
  {
    if inputs != [] {
      var polled := PollEvents(s, inputs[0].resizeEvent);
      var t := Tick(polled, sync, inputs[0].draw);
      NonFailingRunStep(s, sync, inputs);
      NonFailingRunSubmissions(t.1, sync, inputs[1..]);
      var x := SubmissionFor(sync, s.currentFrame, inputs[0].draw.imageIndex);
      var more := Submitted(sync, NextFrame(s.currentFrame), inputs[1..]);
      AppendAfterOne(s.submissions, x, more);
    }
  }

  /** A pass of the main loop with no resize event and a draw() call in which every
      step returns VK_SUCCESS. */
  function CleanInput(imageIndex: nat): LoopInput {
    LoopInput(false, DrawInput(Success, imageIndex, true, Success))
  }

  /** Two advances bring the cursor back to the slot it left. */
  lemma {:induction false} SlotAfterPeriod(c: nat, k: nat)
    requires c < MAX_FRAMES_IN_FLIGHT && 2 <= k
    ensures SlotAfter(c, k) == SlotAfter(c, k - 2)
    decreases k
  {
    if k > 2 {
      SlotAfterPeriod(NextFrame(c), k - 1);
    }
  }

  /** In a run of non-failing calls, from the third call on the fence a call waits on
      first is the fence of the submission made two calls earlier: the wait is for GPU
      work that was submitted, never for a fence nobody will signal. */
  lemma {:induction false} NonFailingRunWaitsOnEarlierSubmission(s: FrameState, sync: SyncObjects, inputs: seq<LoopInput>)
    requires CursorValid(s, sync)
    requires forall input <- inputs :: NonFailing(input.draw) && input.draw.imageIndex < |s.imagesInFlight|
    ensures var r := Run(s, sync, inputs);
      var n := |s.submissions|;
      |r.0| == |inputs| && |r.1.submissions| == n + |inputs| &&
      (forall k :: 2 <= k < |inputs| ==>
         sync.inFlightFences[r.0[k].frame] == r.1.submissions[n + k].fence == r.1.submissions[n + k - 2].fence)
  {
    NonFailingRunFrames(s, sync, inputs);
    NonFailingRunSubmissions(s, sync, inputs);
    var r := Run(s, sync, inputs);
    var n := |s.submissions|;
    var subs := Submitted(sync, s.currentFrame, inputs);
    assert r.1.submissions == s.submissions + subs;
    forall k | 2 <= k < |inputs|
      ensures sync.inFlightFences[r.0[k].frame] == r.1.submissions[n + k].fence == r.1.submissions[n + k - 2].fence
    {
      SubmittedAt(sync, s.currentFrame, inputs, k);
      SubmittedAt(sync, s.currentFrame, inputs, k - 2);
      SlotAfterPeriod(s.currentFrame, k);
      assert r.0[k].frame == SlotAfter(s.currentFrame, k);
      assert r.1.submissions[n + k] == subs[k];
      assert r.1.submissions[n + k - 2] == subs[k - 2];
    }
  }

  /** A presentation that reports out-of-date at the third of four calls, and a window
      resize delivered by the poll before the fourth: those two calls, and only they,
      rebuild; the cursor still advances on every call; the ownership table keeps its
      length (it is not resized by the rebuilds). */
  lemma OutOfDateThenResize(s: FrameState, sync: SyncObjects, images: seq<nat>)
    requires CursorValid(s, sync) && s.currentFrame == 0 && !s.framebufferResized
    requires |images| == 4 && forall k :: 0 <= k < 4 ==> images[k] < |s.imagesInFlight|
    ensures var inputs := [CleanInput(images[0]), CleanInput(images[1]),
                           LoopInput(false, DrawInput(Success, images[2], true, OutOfDate)),
                           LoopInput(true, DrawInput(Success, images[3], true, Success))];
      var r := Run(s, sync, inputs);
      |r.0| == 4 &&
      [r.0[0].outcome, r.0[1].outcome, r.0[2].outcome, r.0[3].outcome] ==
        [Presented(false), Presented(false), Presented(true), Presented(true)] &&
      [r.0[0].frame, r.0[1].frame, r.0[2].frame, r.0[3].frame] == [0, 1, 0, 1] &&
      r.1.currentFrame == 0 &&
      |r.1.imagesInFlight| == |s.imagesInFlight|
  {
    var inputs := [CleanInput(images[0]), CleanInput(images[1]),
                   LoopInput(false, DrawInput(Success, images[2], true, OutOfDate)),
                   LoopInput(true, DrawInput(Success, images[3], true, Success))];
    NonFailingRunFrames(s, sync, inputs);
    NonFailingRunOutcomes(s, sync, inputs);
  }
}
