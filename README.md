# EngineRenderer — a Dafny model of Cardinal's Vulkan renderer core

This project models the core of `EngineRenderer`, the Vulkan renderer of the
Cardinal engine. It covers five parts:

- **Swapchain negotiation** (`swapchain.dfy`): choosing the surface format
  (B8G8R8A8_SRGB with the sRGB non-linear colour space when offered, else the
  first one), the present mode (MAILBOX when offered, else FIFO), the extent
  (the surface's current extent unless its width is the `0xFFFFFFFF`
  sentinel, else the window size clamped into the allowed range), the image
  count (`minImageCount + 1` in 32-bit arithmetic, capped by a non-zero
  `maxImageCount`), and the image sharing mode (CONCURRENT over both families
  when graphics and present differ, else EXCLUSIVE).
- **Queue families and device selection** (`queue_families.dfy`,
  `device_selection.dfy`): the scan over the queue families that stops at
  the first index by which both a graphics family and a present family have
  been seen, keeping for each the last qualifying index up to that point; the layer and extension
  checks against `VK_LAYER_KHRONOS_validation` and `VK_KHR_swapchain`; the
  suitability test; and the first-suitable-device-wins pick that leaves the
  handle null when nothing qualifies. It also covers building one
  queue-create-info per distinct family.
- **The DrawFrame protocol** (`frame.dfy`): the per-frame sequence wait →
  reset fence → acquire → reset command buffer → record → submit → present
  over one fence, two semaphores and one command buffer. Only acquire and
  present failures return early. An acquire failure after the fence reset
  leaves the fence unsignaled with nothing to signal it, so the next frame
  waits forever.
- **Init and Destroy ordering** (`lifecycle.dfy`): the creation and
  destruction orders as event sequences. The model proves that parents are
  created first, children are destroyed first, everything is released, and
  nothing is created or destroyed twice. It also proves the order is *not*
  last-in-first-out.
- **The renderer object** (`renderer.dfy`): class `EngineRenderer`. Its
  fields are the ones `Init`, `Destroy` and `DrawFrame` update, and every
  creation stage is a method. The driver's answers are parameters: the
  physical devices, the results of the calls that can fail, and the images
  the swapchain hands back.

`wrappers.dfy` holds `Option`, and `vulkan.dfy` holds the Vulkan vocabulary:
32-bit unsigned values, results, extents, formats, present modes, queue
families, surface capabilities and the physical-device record.

`Destroy` does not undo creation in exact reverse order. It destroys both
semaphores before the fence, although the fence was created after them. It
frees the command buffer only with its pool. It releases framebuffers and
image views in creation order. The model follows the code:
`Lifecycle.TeardownIsNotReverseOfCreation` proves the order is not
last-in-first-out, and `Lifecycle.LifetimeIsWellOrdered` proves it still
respects every parent/child dependency.

## Model

| member | source | states |
|---|---|---|
| SwapchainNegotiation.FindFrom | EngineRenderer.cpp:1083-1089 | finds the wanted entry exactly when it occurs from position i on, and returns that entry |
| SwapchainNegotiation.ChooseSwapSurfaceFormat | EngineRenderer.cpp:1081-1092 | the chosen format is one of the available ones; it is B8G8R8A8_SRGB/SRGB_NONLINEAR when that pair is offered, else the first entry |
| SwapchainNegotiation.ChooseSwapPresentMode | EngineRenderer.cpp:1094-1106 | MAILBOX exactly when it is offered, otherwise FIFO |
| SwapchainNegotiation.Clamp | EngineRenderer.cpp:1123-1124 | the result lies in [lo, hi] and is the value in that range nearest to v |
| SwapchainNegotiation.ChooseSwapExtent | EngineRenderer.cpp:1108-1130 | the current extent when its width is not 0xFFFFFFFF; otherwise each side is the value nearest the window size within the min/max image extent |
| SwapchainNegotiation.NearestWithinIsUnique | EngineRenderer.cpp:1123-1124 | at most one value in a range is nearest to v, so the clamped extent is determined by the range |
| SwapchainNegotiation.ImageCount | EngineRenderer.cpp:330-335 | minImageCount + 1 modulo 2^32, lowered to maxImageCount when that is non-zero and exceeded; never above a non-zero maximum; wraps to 0 at UINT32_MAX |
| SwapchainNegotiation.ImageSharingFor | EngineRenderer.cpp:351-362 | CONCURRENT over both family indices when graphics and present differ, otherwise EXCLUSIVE with no index list |
| SwapchainNegotiation.SharingMatchesQueueRequests | EngineRenderer.cpp:273-285 | sharing is CONCURRENT exactly when the device was given two distinct queue families, and the concurrent index list never has one entry |
| SwapchainNegotiation.SwapchainCreateInfoFor | EngineRenderer.cpp:320-362 | the create info uses an offered format and colour space: the preferred pair when offered, otherwise the first one offered; MAILBOX exactly when offered and FIFO otherwise, the surface's current extent unless its width is the sentinel and otherwise the window size moved to the nearest allowed value, an image count within a non-zero maximum, one array layer, and CONCURRENT sharing exactly when the families differ |
| QueueFamilies.QueueFamilyIndices.IsComplete | EngineRenderer.h:7-10 | both family indices hold a value; `QueueFamiliesOf` and `FindQueueFamilies` state when that happens |
| QueueFamilies.RecordFamily | EngineRenderer.cpp:1027-1038 | one scan step: the index is recorded as graphics family when the family has the graphics bit and as present family when it can present; the scan's contracts are stated by `ScanFromCompletes` and `FindQueueFamilies` |
| QueueFamilies.ScanFrom | EngineRenderer.cpp:1026-1046 | the scan from index i on, stopping as soon as the indices are complete; `ScanFromCompletes` states when it completes and `FindQueueFamilies` proves the loop equal to it |
| QueueFamilies.ScanFromCompletes | EngineRenderer.cpp:1026-1046 | with the indices recording what the first i families supply and not yet complete, finishing the scan completes them exactly when the whole list has a graphics family and a present family |
| QueueFamilies.QueueFamiliesOf | EngineRenderer.cpp:1014-1049 | the indices are complete exactly when some family has the graphics bit and some family can present |
| QueueFamilies.FindQueueFamilies | EngineRenderer.cpp:1014-1049 | the loop yields the specified indices; a recorded graphics index names a family with the graphics bit, a recorded present index one with present support |
| QueueFamilies.UniqueQueueFamilies | EngineRenderer.cpp:273 | the distinct family indices in ascending order: an index is listed exactly when it is the graphics or the present family |
| QueueFamilies.BuildQueueCreateInfos | EngineRenderer.cpp:272-285 | one queue-create-info per distinct family, one queue each, covering exactly the graphics and present families |
| DeviceSelection.CheckValidationLayerSupport | EngineRenderer.cpp:889-940 | true exactly when every requested layer name is among the available layers |
| DeviceSelection.CheckDeviceExtensionsSupport | EngineRenderer.cpp:959-993 | true exactly when every required extension name is among the available extensions |
| DeviceSelection.IsDeviceSuitable | EngineRenderer.cpp:942-957 | suitable exactly when the families are complete, the extensions are supported and the swapchain offers a format and a present mode; swapchain support is queried only when the extensions are supported |
| DeviceSelection.Suitable | EngineRenderer.cpp:942-957 | a graphics family, a present family, every required extension, and at least one format and one present mode; `IsDeviceSuitable` is proved to return exactly this |
| DeviceSelection.FirstSuitableDevice | EngineRenderer.cpp:809-821 | the device the pick keeps; `FirstSuitableDeviceIsFirst`, `FirstSuitableDeviceAt` and `NoSuitableDeviceChosen` state what it is, and `PickPhysicalDevice` is proved to store it |
| DeviceSelection.FirstSuitableDeviceIsFirst | EngineRenderer.cpp:809-821 | the pick, when there is one, is a suitable device and every device before it is unsuitable |
| DeviceSelection.FirstSuitableDeviceAt | EngineRenderer.cpp:809-821 | if device k is suitable and all before it are not, device k is picked |
| DeviceSelection.NoSuitableDeviceChosen | EngineRenderer.cpp:809-826 | nothing is picked exactly when no device is suitable |
| FrameProtocol.FrameCalls | EngineRenderer.cpp:106-195 | the calls one DrawFrame issues; `FrameCallsFollowFullFrame` states their shape and `DrawFrame` is proved to issue exactly these |
| FrameProtocol.NextFrame | EngineRenderer.cpp:106-195 | the fence and command-buffer state one DrawFrame leaves; the frame lemmas state what it preserves and `DrawFrame` is proved to reach exactly it |
| FrameProtocol.FrameCallsFollowFullFrame | EngineRenderer.cpp:106-195 | every frame's calls are a prefix of the full sequence; only the wait happens when the fence is never signaled; a submit happens exactly when the fence can signal and the acquire succeeds; a draw is always followed by a submit |
| FrameProtocol.InitialFrameIsHealthy | EngineRenderer.cpp:684-721 | the state after CreateSyncObjects (fence created signaled, command buffer initial) satisfies the frame invariant |
| FrameProtocol.SuccessfulFrameKeepsOneInFlight | EngineRenderer.cpp:106-195 | a frame whose calls all succeed keeps the invariant and leaves exactly one submission in flight, with the fence awaiting the GPU |
| FrameProtocol.SuccessfulRunNeverBlocks | EngineRenderer.cpp:106-195 | any run of successful frames keeps the invariant, so no wait ever blocks, and at most one submission is in flight |
| FrameProtocol.AcquireFailureStrandsFence | EngineRenderer.cpp:120-135 | an acquire failure after the fence reset returns with the fence unsignaled and nothing submitted; the next frame's wait blocks forever and issues no other call |
| FrameProtocol.FailedWaitBreaksDiscipline | EngineRenderer.cpp:112-126 | a failed wait is only logged, so the reset that follows resets a fence still in use, and a successful submit then leaves two submissions in flight |
| FrameProtocol.FirstFrame | EngineRenderer.cpp:106-195 | the first frame never blocks and starts wait, reset, acquire; when everything succeeds it issues the full call sequence for image 0 |
| Lifecycle.InitEvents | EngineRenderer.cpp:43-69 | the creation events of a complete Init; `InitAt`, `InitHas` and the lifetime lemmas state their order, and `Init` is proved to produce them |
| Lifecycle.TeardownEvents | EngineRenderer.cpp:71-104 | the release events of Destroy; `TeardownAt`, `TeardownHas` and the lifetime lemmas state their order, and `Destroy` is proved to produce them |
| Lifecycle.InitEventsByPhase | EngineRenderer.cpp:52-64 | Init's events split into the device phase, the swapchain-object phase and the command/sync phase |
| Lifecycle.FramebufferFailureStopsEarly | EngineRenderer.cpp:619-645 | a failure at framebuffer f < n leaves a strict prefix of Init's events |
| Lifecycle.StopsWithin | EngineRenderer.cpp:52-64 | stopping part-way through a phase leaves a strict prefix of the full creation sequence |
| Lifecycle.InitAt | EngineRenderer.cpp:52-64 | Init produces 16 events (+1 with validation) plus 2 per swapchain image, each at its computed position |
| Lifecycle.TeardownAt | EngineRenderer.cpp:71-104 | Destroy produces 11 events (+1 with validation) plus 2 per image, each at its computed position after Init's events |
| Lifecycle.LifetimeAt | EngineRenderer.cpp:43-104 | every event of Init followed by Destroy sits at the position the placement functions give |
| Lifecycle.InitHas | EngineRenderer.cpp:52-64 | every object Init creates is created at its computed position |
| Lifecycle.InitDestroysShaders | EngineRenderer.cpp:613-614 | both shader modules are destroyed inside CreateGraphicsPipeline, within Init |
| Lifecycle.TeardownHas | EngineRenderer.cpp:71-104 | every created object not freed with its parent or inside Init is destroyed by Destroy at its computed position |
| Lifecycle.LifetimeHas | EngineRenderer.cpp:43-104 | each created object's creation event, and its destruction event unless it is freed with its parent, sit at their computed positions |
| Lifecycle.ParentOrder | EngineRenderer.cpp:43-104 | every parent of a created object is created before it and, unless the child is freed with it, destroyed after it |
| Lifecycle.LifetimeCreatesParentsFirst | EngineRenderer.cpp:52-64 | no object is created before all of its parents |
| Lifecycle.LifetimeDestroysChildrenFirst | EngineRenderer.cpp:71-104 | no object is destroyed while a child it does not free implicitly is still alive |
| Lifecycle.LifetimeDestroysWhatItCreates | EngineRenderer.cpp:71-104 | every created object is destroyed, except the command buffer, which is freed with its pool |
| Lifecycle.LifetimeCreatesBeforeDestroying | EngineRenderer.cpp:43-104 | every destruction comes after the creation of the same object |
| Lifecycle.LifetimeReleasesEverything | EngineRenderer.cpp:43-104 | the lifetime destroys every object it creates (the command buffer through its pool), and destroys only objects it created earlier |
| Lifecycle.LifetimeHasNoRepeats | EngineRenderer.cpp:43-104 | no object is created twice and none destroyed twice |
| Lifecycle.LifetimeIsWellOrdered | EngineRenderer.cpp:43-104 | the lifetime creates parents first, destroys children first, releases everything and repeats nothing |
| Lifecycle.TeardownIsNotReverseOfCreation | EngineRenderer.cpp:73-75 | Destroy is not last-in-first-out: the fence was created after the render-finished semaphore yet is destroyed after it |
| Lifecycle.FramebuffersReleasedInCreationOrder | EngineRenderer.cpp:79-91 | framebuffers are destroyed in the order they were created, and so are image views |
| Renderer.EngineRenderer.constructor | EngineRenderer.cpp:5-39 | a fresh renderer: no handles, null physical device, empty lifecycle, no calls |
| Renderer.EngineRenderer.Init | EngineRenderer.cpp:43-69 | fails with nothing created exactly when validation is on and a layer is missing; otherwise picks the first suitable device; aborts with a strict prefix of the creation order on the first throwing failure; succeeds exactly when every answer is good, and then has created everything in order with the configured device, swapchain, one view and one framebuffer per image, and a signaled fence |
| Renderer.EngineRenderer.CreateDeviceObjects | EngineRenderer.cpp:52-56 | instance, debug messenger, surface, physical device and logical device; the no-device and device-failure outcomes exactly as the answers say, and a configured device on success |
| Renderer.EngineRenderer.CreatePresentationObjects | EngineRenderer.cpp:57-64 | the swapchain objects then the command and sync objects; succeeds exactly when the framebuffer, pool and buffer answers are good, and then the swapchain and command objects are configured |
| Renderer.EngineRenderer.CreateSwapChainObjects | EngineRenderer.cpp:57-61 | swapchain, views, render pass, pipeline and framebuffers; fails exactly when a framebuffer index below the image count fails, leaving a strict prefix of the creation order |
| Renderer.EngineRenderer.CreateCommandObjects | EngineRenderer.cpp:62-64 | pool, buffer and sync objects; the pool failure and buffer failure outcomes exactly as the answers say; on success the command buffer is initial and the fence signaled |
| Renderer.EngineRenderer.CreateInstance | EngineRenderer.cpp:197-241 | records the instance's creation |
| Renderer.EngineRenderer.SetupDebugMessenger | EngineRenderer.cpp:830-849 | records the debug messenger's creation only when validation is enabled |
| Renderer.EngineRenderer.CreateSurface | EngineRenderer.cpp:243-266 | records the surface's creation |
| Renderer.EngineRenderer.PickPhysicalDevice | EngineRenderer.cpp:780-828 | stores the first suitable device; leaves the handle unchanged (null) when there is none |
| Renderer.EngineRenderer.CreateLogicalDevice | EngineRenderer.cpp:268-318 | requests one queue per distinct family with the swapchain extension and, when enabled, the validation layer; on success records the device and both queue families; on failure records no device and leaves the queue families unset |
| Renderer.EngineRenderer.CreateSwapChain | EngineRenderer.cpp:320-398 | stores the negotiated create info, the returned images, and the format and extent taken from the create info |
| Renderer.EngineRenderer.CreateImageViews | EngineRenderer.cpp:400-433 | one view per swapchain image, each over its own image in the swapchain's format |
| Renderer.EngineRenderer.CreateRenderPass | EngineRenderer.cpp:435-482 | records the render pass's creation |
| Renderer.EngineRenderer.CreateGraphicsPipeline | EngineRenderer.cpp:484-617 | creates both shader modules, the layout and the pipeline, then destroys the shader modules |
| Renderer.EngineRenderer.CreateFrameBuffers | EngineRenderer.cpp:619-645 | one framebuffer slot per view; fails exactly at the first failing index, having created the framebuffers before it |
| Renderer.EngineRenderer.CreateCommandPool | EngineRenderer.cpp:647-664 | on success a pool on the graphics family; on failure nothing changes |
| Renderer.EngineRenderer.CreateCommandBuffer | EngineRenderer.cpp:666-682 | on success one command buffer in the initial state; on failure nothing changes |
| Renderer.EngineRenderer.CreateSyncObjects | EngineRenderer.cpp:684-721 | both semaphores and a fence created signaled |
| Renderer.EngineRenderer.Destroy | EngineRenderer.cpp:71-104 | appends the teardown events in the source's order |
| Renderer.EngineRenderer.RecordCommandBuffer | EngineRenderer.cpp:723-778 | begin, render pass on framebuffer[imageIndex] with the swapchain extent, bind pipeline, viewport, scissor, draw 3 vertices 1 instance, end; the buffer ends executable only when begin and end succeed |
| Renderer.EngineRenderer.DrawFrame | EngineRenderer.cpp:106-195 | the new fence/command-buffer state is the frame transition of the old one, and the issued calls are exactly the frame's call sequence |
| Renderer.EngineRenderer.AwaitInFlightFence | EngineRenderer.cpp:112-118 | one wait: a signaled fence passes; one awaiting the GPU completes; an unsignaled fence with nothing pending blocks |
| Renderer.EngineRenderer.ResetInFlightFence | EngineRenderer.cpp:120-126 | one reset: the fence becomes unsignaled, and resetting one still in use is flagged |
| Renderer.EngineRenderer.ResetFrameCommandBuffer | EngineRenderer.cpp:138-144 | one reset: the command buffer returns to initial, and resetting one still in flight is flagged |
| Renderer.EngineRenderer.SubmitCommandBuffer | EngineRenderer.cpp:147-170 | one submit: on success the buffer is in flight, the fence awaits the GPU and one more submission is pending |
| Renderer.RendererLifetime | EngineRenderer.cpp:43-104 | a successful Init followed by Destroy is well ordered and not last-in-first-out; a failed Init leaves a strict prefix of the creation order |

## Left out

- The window, the application and the entry point: the window appears only as its size, a parameter.
- The logger: messages have no effect on the modelled state.
- `ReadFile` and shader loading: shader code is not modelled, and a missing shader file is not modelled as a failure.
- The fixed contents of the create-info structures: attachment descriptions, rasteriser, blend and viewport settings, clear colour, queue priority. Floating point is not modelled.
- The internals of instance, surface and debug-messenger creation, and `GetRequiredExtensions`: only their place in the creation order is kept.
- Failures that the source only logs are taken as successes: instance, surface, debug messenger, swapchain and image queries, image views, render pass, pipeline layout, pipeline and sync objects. The state after such a failure is not modelled. In DrawFrame the results of the fence wait, the fence reset, the command-buffer reset, begin/end recording and submit are modelled: each is only logged, and the model records what the call did or did not change.
- The GPU timeline, semaphore signalling and wait timeouts: the fence is abstracted to signaled / unsignaled / awaiting the GPU. An unsignaled fence is modelled as a wait that never returns. After a fence reset while a batch is still pending (flagged as misuse, which Vulkan leaves undefined) the model still treats the fence as unsignaled, although the pending batch may signal it.
- `QuerySwapChainSupport` and the enumeration calls: their answers are fields of the physical-device record.
- `MAX_FRAMES_IN_FLIGHT`: it is declared but unused. The model has one fence, two semaphores and one command buffer, as the source does.
- Renderer.EngineRenderer.Init: when no device is suitable, the source logs and continues with a null handle (undefined behaviour). The model stops with `Aborted(NoSuitableDevice)`.
- Renderer.EngineRenderer.Init: requires the chosen device's extent range to be valid (minimum not above maximum), as `std::clamp` demands.
- SwapchainNegotiation.ChooseSwapExtent: requires a valid extent range, the same `std::clamp` precondition.
- SwapchainNegotiation.ChooseSwapSurfaceFormat: requires at least one format, which device suitability guarantees before it is called.
- Renderer.EngineRenderer.Destroy: modelled only after a successful Init; destroying a partly initialised renderer is not modelled.
- Renderer.EngineRenderer.DrawFrame: requires the frame objects to exist; a DrawFrame after a failed Init is not modelled.
- Renderer.EngineRenderer.DrawFrame: requires a valid image index after a successful acquire, which the driver guarantees.
