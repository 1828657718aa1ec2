/**
 * The host side of `DrawFrame` as a state machine over the abstract state of
 * the one in-flight fence and the one command buffer. Each driver call's
 * result is an input. The GPU timeline itself is not modelled: a successful
 * fence wait stands for "the submitted work has completed".
 */
module FrameProtocol {
  import opened Vulkan

  /**
   * The in-flight fence as the host sees it. `AwaitingGpu`: unsignaled, with a
   * submitted batch that will signal it when it completes.
   */
  datatype FenceState = Signaled | Unsignaled | AwaitingGpu

  /** The command buffer lifecycle of the Vulkan specification ("Command Buffer Lifecycle"). */
  datatype CommandBufferState = Initial | Recording | Executable | InFlight | Invalid

  /**
   * The host-visible frame state.
   * `pendingSubmissions`: submitted batches the host has not yet seen complete.
   * `blocked`: the host thread sits in a fence wait that can never return.
   * `misuse`: some call broke a valid-usage rule (reset of a fence or command
   * buffer still in use, recording outside the recording state, submission of a
   * buffer that is not executable or with a fence that is not unsignaled).
   */
  datatype FrameState = FrameState(
    fence: FenceState,
    commandBuffer: CommandBufferState,
    pendingSubmissions: nat,
    blocked: bool,
    misuse: bool)

  /** The state `CreateSyncObjects` and `CreateCommandBuffer` leave: the fence is created signaled. */
  const InitialFrame: FrameState := FrameState(Signaled, Initial, 0, false, false)

  datatype Semaphore = ImageAvailable | RenderFinished

  /** The driver calls `DrawFrame` issues, with the arguments that matter for ordering. */
  datatype Call =
    | WaitForFence
    | ResetFence
    | AcquireNextImage(signal: Semaphore)
    | ResetCommandBuffer
    | BeginCommandBuffer
    | BeginRenderPass(framebuffer: nat, renderArea: Extent2D)
    | BindPipeline
    | SetViewport(viewport: Extent2D)
    | SetScissor(scissor: Extent2D)
    | Draw(vertexCount: nat, instanceCount: nat, firstVertex: nat, firstInstance: nat)
    | EndRenderPass
    | EndCommandBuffer
    | QueueSubmit(wait: Semaphore, signal: Semaphore, signalsFence: bool)
    | QueuePresent(wait: Semaphore, imageIndex: nat)

  /** What the driver answers during one frame: one result per checked call, and the acquired index. */
  datatype FrameAnswers = FrameAnswers(
    waitResult: VkResult,
    resetFenceResult: VkResult,
    acquireResult: VkResult,
    imageIndex: Uint32,
    resetCommandBufferResult: VkResult,
    beginResult: VkResult,
    endResult: VkResult,
    submitResult: VkResult,
    presentResult: VkResult)

  /** Every call of a frame succeeds. */
  predicate AllSucceed(a: FrameAnswers) {
    a.waitResult == VK_SUCCESS && a.resetFenceResult == VK_SUCCESS && a.acquireResult == VK_SUCCESS &&
    a.resetCommandBufferResult == VK_SUCCESS && a.beginResult == VK_SUCCESS && a.endResult == VK_SUCCESS &&
    a.submitResult == VK_SUCCESS && a.presentResult == VK_SUCCESS
  }

  /** `RecordCommandBuffer`: one render pass on the acquired image's framebuffer, drawing 3 vertices once. */
  function RecordedCalls(imageIndex: nat, extent: Extent2D): seq<Call> {
    [BeginCommandBuffer, BeginRenderPass(imageIndex, extent), BindPipeline, SetViewport(extent), SetScissor(extent),
     Draw(3, 1, 0, 0), EndRenderPass, EndCommandBuffer]
  }

  /** The complete call sequence of a frame that is not cut short. */
  function FullFrame(imageIndex: nat, extent: Extent2D): seq<Call> {
    [WaitForFence, ResetFence, AcquireNextImage(ImageAvailable), ResetCommandBuffer] +
    RecordedCalls(imageIndex, extent) +
    [QueueSubmit(ImageAvailable, RenderFinished, true), QueuePresent(RenderFinished, imageIndex)]
  }

  /**
   * The calls one `DrawFrame` issues from state `s`: it stops inside the wait
   * when the fence can never be signaled, and returns right after an acquire
   * that fails; otherwise it issues the whole frame. Failed waits, resets and
   * submissions do not cut it short.
   */
  function FrameCalls(s: FrameState, a: FrameAnswers, extent: Extent2D): seq<Call> {
    if s.fence == Unsignaled then [WaitForFence]
    else if a.acquireResult != VK_SUCCESS then [WaitForFence, ResetFence, AcquireNextImage(ImageAvailable)]
    else FullFrame(a.imageIndex, extent)
  }

  /**
   * Every frame issues a prefix of the full call sequence, in order; it stops
   * after the first call exactly when the wait blocks, it submits exactly when
   * it neither blocks nor fails to acquire, and it never draws without
   * submitting.
   */
  lemma {:induction false} FrameCallsFollowFullFrame(s: FrameState, a: FrameAnswers, extent: Extent2D)
    ensures FrameCalls(s, a, extent) <= FullFrame(a.imageIndex, extent)
    ensures |FrameCalls(s, a, extent)| == 1 <==> s.fence == Unsignaled
    ensures QueueSubmit(ImageAvailable, RenderFinished, true) in FrameCalls(s, a, extent) <==>
      s.fence != Unsignaled && a.acquireResult == VK_SUCCESS
    ensures Draw(3, 1, 0, 0) in FrameCalls(s, a, extent) ==> QueueSubmit(ImageAvailable, RenderFinished, true) in FrameCalls(s, a, extent)
  {
    var full := FullFrame(a.imageIndex, extent);
    assert full[..3] == [WaitForFence, ResetFence, AcquireNextImage(ImageAvailable)];
    assert full[12] == QueueSubmit(ImageAvailable, RenderFinished, true);
  }

  /** `vkWaitForFences` with an unbounded timeout. */
  function AfterWait(s: FrameState, result: VkResult): FrameState {
    if s.fence == Unsignaled then s.(blocked := true)
    else if result == VK_SUCCESS then
      s.(fence := Signaled, pendingSubmissions := 0,
         commandBuffer := if s.commandBuffer == InFlight then Executable else s.commandBuffer)
    else s
  }

  /** `vkResetFences`: resetting a fence a pending batch will still signal is misuse. */
  function AfterResetFence(s: FrameState, result: VkResult): FrameState {
    if result == VK_SUCCESS then
      s.(fence := Unsignaled, misuse := s.misuse || s.fence == AwaitingGpu)
    else s
  }

  /** `vkResetCommandBuffer`: resetting a buffer that is still executing is misuse. */
  function AfterResetCommandBuffer(s: FrameState, result: VkResult): FrameState {
    if result == VK_SUCCESS then
      s.(commandBuffer := Initial, misuse := s.misuse || s.commandBuffer == InFlight)
    else s
  }

  /** `RecordCommandBuffer`: begin, record the render-pass commands, end. */
  function AfterRecord(s: FrameState, beginResult: VkResult, endResult: VkResult): FrameState {
    var begun :=
      if beginResult == VK_SUCCESS then s.(commandBuffer := Recording, misuse := s.misuse || s.commandBuffer == InFlight)
      else s;
    // the vkCmd* calls and vkEndCommandBuffer need the recording state
    var recorded := begun.(misuse := begun.misuse || begun.commandBuffer != Recording);
    if recorded.commandBuffer == Recording then
      recorded.(commandBuffer := if endResult == VK_SUCCESS then Executable else Invalid)
    else recorded
  }

  /** `vkQueueSubmit` with the in-flight fence. */
  function AfterSubmit(s: FrameState, result: VkResult): FrameState {
    var checked := s.(misuse := s.misuse || s.commandBuffer != Executable || s.fence != Unsignaled);
    if result == VK_SUCCESS then
      checked.(fence := AwaitingGpu, commandBuffer := InFlight, pendingSubmissions := s.pendingSubmissions + 1)
    else checked
  }

  /** The state one `DrawFrame` leaves. Presentation does not touch the fence or the command buffer. */
  function NextFrame(s: FrameState, a: FrameAnswers): FrameState {
    var waited := AfterWait(s, a.waitResult);
    if waited.blocked then waited
    else
      var reset := AfterResetFence(waited, a.resetFenceResult);
      if a.acquireResult != VK_SUCCESS then reset
      else AfterSubmit(
        AfterRecord(AfterResetCommandBuffer(reset, a.resetCommandBufferResult), a.beginResult, a.endResult),
        a.submitResult)
  }

  /**
   * A state of the single-frame-in-flight discipline: not blocked, no misuse so
   * far, at most one batch pending, the fence awaiting the GPU exactly while
   * that batch and the command buffer are in flight, and a fence that a wait
   * can get past.
   */
  ghost predicate Healthy(s: FrameState) {
    && !s.blocked
    && !s.misuse
    && s.fence != Unsignaled
    && s.commandBuffer != Recording
    && s.pendingSubmissions <= 1
    && (s.fence == AwaitingGpu <==> s.pendingSubmissions == 1)
    && (s.commandBuffer == InFlight <==> s.pendingSubmissions == 1)
  }

  lemma InitialFrameIsHealthy()
    ensures Healthy(InitialFrame)
  {
  }

  /**
   * A frame whose every call succeeds keeps the discipline: it ends with
   * exactly one batch in flight, signaling the fence the next frame waits on.
   */
  lemma {:induction false} SuccessfulFrameKeepsOneInFlight(s: FrameState, a: FrameAnswers)
    requires Healthy(s) && AllSucceed(a)
    ensures Healthy(NextFrame(s, a))
    ensures NextFrame(s, a).fence == AwaitingGpu && NextFrame(s, a).commandBuffer == InFlight
    ensures NextFrame(s, a).pendingSubmissions == 1
  {
    var waited := AfterWait(s, a.waitResult);
    assert waited.fence == Signaled && waited.pendingSubmissions == 0 && waited.commandBuffer != InFlight;
    var reset := AfterResetFence(waited, a.resetFenceResult);
    assert reset.fence == Unsignaled && !reset.misuse;
    var cleared := AfterResetCommandBuffer(reset, a.resetCommandBufferResult);
    assert cleared.commandBuffer == Initial && !cleared.misuse;
    var recorded := AfterRecord(cleared, a.beginResult, a.endResult);
    assert recorded.commandBuffer == Executable && !recorded.misuse && recorded.fence == Unsignaled;
  }

  /** The states a run of frames goes through, one `DrawFrame` per answer record, stopping once the host blocks. */
  function Run(s: FrameState, frames: seq<FrameAnswers>): FrameState
    decreases |frames|
  {
    if |frames| == 0 || s.blocked then s else Run(NextFrame(s, frames[0]), frames[1..])
  }

  /** Starting from the freshly created fence, frames whose calls all succeed never block and never misuse. */
  lemma {:induction false} SuccessfulRunNeverBlocks(s: FrameState, frames: seq<FrameAnswers>)
    requires Healthy(s)
    requires forall k :: 0 <= k < |frames| ==> AllSucceed(frames[k])
    ensures Healthy(Run(s, frames))
    ensures |frames| > 0 ==> Run(s, frames).pendingSubmissions == 1
    decreases |frames|
  {
    if |frames| > 0 {
      SuccessfulFrameKeepsOneInFlight(s, frames[0]);
      SuccessfulRunNeverBlocks(NextFrame(s, frames[0]), frames[1..]);
      if |frames| > 1 {
        assert Run(s, frames) == Run(NextFrame(s, frames[0]), frames[1..]);
      }
    }
  }

  /**
   * A failed acquire after a successful fence reset leaves the fence unsignaled
   * with nothing submitted to signal it, so the next frame blocks forever in its
   * wait, whatever the driver answers. The fence must have been free to reset:
   * either the wait succeeded or nothing was pending; resetting a fence that a
   * pending batch will still signal is the misuse `FailedWaitBreaksDiscipline`
   * describes.
   */
  lemma {:induction false} AcquireFailureStrandsFence(s: FrameState, a: FrameAnswers, b: FrameAnswers, extent: Extent2D)
    requires !s.blocked && s.fence != Unsignaled
    requires a.waitResult == VK_SUCCESS || s.fence == Signaled
    requires a.resetFenceResult == VK_SUCCESS && a.acquireResult != VK_SUCCESS
    ensures NextFrame(s, a).fence == Unsignaled && !NextFrame(s, a).blocked
    ensures QueueSubmit(ImageAvailable, RenderFinished, true) !in FrameCalls(s, a, extent)
    ensures a.waitResult == VK_SUCCESS ==> NextFrame(s, a).pendingSubmissions == 0
    ensures !NextFrame(s, a).misuse || s.misuse
    ensures NextFrame(NextFrame(s, a), b).blocked
    ensures FrameCalls(NextFrame(s, a), b, extent) == [WaitForFence]
  {
    var s1 := NextFrame(s, a);
    assert s1 == AfterResetFence(AfterWait(s, a.waitResult), a.resetFenceResult);
    assert s1.fence == Unsignaled;
  }

  /**
   * A failed wait is only logged: when a batch is still pending, the fence reset
   * that follows resets a fence still in use, and a successful submission then
   * puts a second batch in flight.
   */
  lemma {:induction false} FailedWaitBreaksDiscipline(s: FrameState, a: FrameAnswers)
    requires Healthy(s) && s.fence == AwaitingGpu
    requires a.waitResult != VK_SUCCESS && a.resetFenceResult == VK_SUCCESS
    ensures NextFrame(s, a).misuse
    ensures a.acquireResult == VK_SUCCESS && a.submitResult == VK_SUCCESS ==> NextFrame(s, a).pendingSubmissions == 2
  {
    var waited := AfterWait(s, a.waitResult);
    assert waited == s;
    assert AfterResetFence(waited, a.resetFenceResult).misuse;
  }

  /**
   * The first frame after initialisation waits on the fence created signaled,
   * so it does not block; when every call succeeds and image 0 is acquired it
   * issues the whole frame in order, drawing into framebuffer 0.
   */
  lemma {:induction false} FirstFrame(a: FrameAnswers, extent: Extent2D)
    ensures !NextFrame(InitialFrame, a).blocked
    ensures FrameCalls(InitialFrame, a, extent)[..3] == [WaitForFence, ResetFence, AcquireNextImage(ImageAvailable)]
    ensures AllSucceed(a) && a.imageIndex == 0 ==>
      FrameCalls(InitialFrame, a, extent) == FullFrame(0, extent) &&
      FrameCalls(InitialFrame, a, extent)[5] == BeginRenderPass(0, extent) &&
      FrameCalls(InitialFrame, a, extent)[9] == Draw(3, 1, 0, 0) &&
      NextFrame(InitialFrame, a).fence == AwaitingGpu
  {
    var calls := FrameCalls(InitialFrame, a, extent);
    assert |calls| >= 3;
    if AllSucceed(a) {
      InitialFrameIsHealthy();
      SuccessfulFrameKeepsOneInFlight(InitialFrame, a);
    }
  }
}
