/**
 * `EngineRenderer`: the object that owns every Vulkan handle of the engine.
 * Its fields are updated in place by `Init` (through the creation stages),
 * `DrawFrame` and `Destroy`. Driver calls are replaced by their answers, which
 * come in as parameters. The handles themselves are not modelled: each field
 * holds what the renderer knows about the object behind it, and the
 * `lifecycle` and `calls` fields record, in order, the objects created and
 * destroyed and the driver calls made by `DrawFrame`.
 */
module Renderer {
  import opened Wrappers
  import opened Vulkan
  import opened QueueFamilies
  import opened SwapchainNegotiation
  import opened DeviceSelection
  import opened FrameProtocol
  import Lifecycle

  /** A swapchain image, as `vkGetSwapchainImagesKHR` hands it out. */
  datatype Image = Image(id: nat)

  /** `VkImageView`: the null handle, or a 2D colour view of one swapchain image. */
  datatype ImageView = NullImageView | ImageView(image: Image, format: Format)

  /** `VkFramebuffer`: the null handle, or a framebuffer with a single colour attachment. */
  datatype Framebuffer = NullFramebuffer | Framebuffer(attachment: ImageView, width: Uint32, height: Uint32, layers: nat)

  /** The fields of `VkDeviceCreateInfo` that `CreateLogicalDevice` fills in, other than the empty feature set. */
  datatype DeviceCreateInfo = DeviceCreateInfo(
    queueCreateInfos: seq<QueueCreateInfo>,
    enabledExtensions: seq<string>,
    enabledLayers: seq<string>)

  /** The creation stages that throw when the driver refuses, and a device search that finds nothing. */
  datatype InitError =
    | NoSuitableDevice
    | LogicalDeviceCreationFailed
    | FramebufferCreationFailed(index: nat)
    | CommandPoolCreationFailed
    | CommandBufferAllocationFailed

  /**
   * How `Init` ends: it returns true, returns false because the validation
   * layers are missing, or leaves through an exception (or, for a missing
   * device, through undefined behaviour that the model cuts short).
   */
  datatype InitOutcome = Initialized | ValidationLayersUnavailable | Aborted(error: InitError)

  /**
   * The driver's answers during `Init`: the instance layers, the physical
   * devices in enumeration order, the result of `vkCreateDevice`, the images of
   * the created swapchain, the first framebuffer whose creation fails (if any),
   * and the results of `vkCreateCommandPool` and `vkAllocateCommandBuffers`.
   * Creation calls whose failure `Init` only logs are taken to succeed.
   */
  datatype DriverAnswers = DriverAnswers(
    availableLayers: seq<string>,
    devices: seq<PhysicalDevice>,
    deviceResult: VkResult,
    swapChainImages: seq<Image>,
    failingFramebuffer: Option<nat>,
    commandPoolResult: VkResult,
    commandBufferResult: VkResult)

  /** `std::clamp` in `ChooseSwapExtent` needs a non-empty range whenever the surface leaves the extent to the application. */
  predicate ExtentChoosable(capabilities: SurfaceCapabilities) {
    capabilities.currentExtent.width == UINT32_MAX ==> ExtentRangeValid(capabilities)
  }

  /** The device `PickPhysicalDevice` will choose, if any, lets `ChooseSwapExtent` run. */
  ghost predicate ChosenExtentChoosable(devices: seq<PhysicalDevice>) {
    var chosen := FirstSuitableDevice(devices);
    chosen.Some? ==> ExtentChoosable(chosen.value.swapChainSupport.capabilities)
  }

  class EngineRenderer {
    /** `ENABLE_VALIDATION_LAYERS`. */
    const validationEnabled: bool
    /** The window dimensions stored by `EngineWindow`, the only thing the renderer takes from `m_window`. */
    const window: Extent2D

    /** `m_physicalDevice`; `None` is `VK_NULL_HANDLE`. */
    var physicalDevice: Option<PhysicalDevice>
    /** What `CreateLogicalDevice` asked `vkCreateDevice` for. */
    var deviceCreateInfo: Option<DeviceCreateInfo>
    /** The families `m_graphicsQueue` and `m_presentQueue` were taken from. */
    var graphicsQueueFamily: Option<nat>
    var presentQueueFamily: Option<nat>
    /** What `CreateSwapChain` asked `vkCreateSwapchainKHR` for. */
    var swapChainCreateInfo: Option<SwapchainCreateInfo>
    var swapChainImages: seq<Image>
    var swapChainImageViews: seq<ImageView>
    var swapChainFrameBuffers: seq<Framebuffer>
    var swapChainImageFormat: Format
    var swapChainExtent: Extent2D
    /** The family `m_commandPool` was created for. */
    var commandPoolFamily: Option<nat>
    /** `m_commandBuffer`, by its lifecycle state; `None` is `VK_NULL_HANDLE`. */
    var commandBuffer: Option<CommandBufferState>
    /** `m_inFlightFence`, by its state; `None` is the empty handle the constructor leaves. */
    var inFlightFence: Option<FenceState>
    /** Host-side bookkeeping of the frame protocol (see `FrameProtocol.FrameState`). */
    var pendingSubmissions: nat
    var blocked: bool
    var misuse: bool
    /** The objects created and destroyed so far, in order. */
    var lifecycle: seq<Lifecycle.Event>
    /** The driver calls `DrawFrame` has made so far, in order. */
    var calls: seq<Call>

    /** The state the constructor leaves: every handle null, nothing created, nothing recorded. */
    predicate Fresh()
      reads this
    {
      && physicalDevice.None? && deviceCreateInfo.None?
      && graphicsQueueFamily.None? && presentQueueFamily.None?
      && swapChainCreateInfo.None?
      && swapChainImages == [] && swapChainImageViews == [] && swapChainFrameBuffers == []
      && swapChainImageFormat == VK_FORMAT_UNDEFINED && swapChainExtent == Extent2D(0, 0)
      && commandPoolFamily.None? && commandBuffer.None? && inFlightFence.None?
      && pendingSubmissions == 0 && !blocked && !misuse
      && lifecycle == [] && calls == []
    }

    /**
     * One image view per swapchain image, viewing that image in the swapchain's
     * format, and one framebuffer per image view, attaching that view at the
     * swapchain's extent.
     */
    predicate Valid()
      reads this`swapChainImages, this`swapChainImageViews, this`swapChainFrameBuffers
      reads this`swapChainImageFormat, this`swapChainExtent
    {
      && |swapChainImageViews| == |swapChainImages|
      && |swapChainFrameBuffers| == |swapChainImageViews|
      && (forall i :: 0 <= i < |swapChainImageViews| ==>
            swapChainImageViews[i] == ImageView(swapChainImages[i], swapChainImageFormat))
      && (forall i :: 0 <= i < |swapChainFrameBuffers| ==>
            swapChainFrameBuffers[i] == Framebuffer(swapChainImageViews[i], swapChainExtent.width, swapChainExtent.height, 1))
    }

    /** The command buffer and the fence exist, so `DrawFrame` has something to work on. */
    predicate HasFrameObjects()
      reads this`commandBuffer, this`inFlightFence
    {
      commandBuffer.Some? && inFlightFence.Some?
    }

    /** The frame state of the renderer, as `FrameProtocol` describes it. */
    function Frame(): FrameState
      reads this`commandBuffer, this`inFlightFence, this`pendingSubmissions, this`blocked, this`misuse
      requires HasFrameObjects()
    {
      FrameState(inFlightFence.value, commandBuffer.value, pendingSubmissions, blocked, misuse)
    }

    /**
     * What `PickPhysicalDevice` and `CreateLogicalDevice` leave when both
     * succeed: a suitable device, whose queue families are complete, asked
     * for one queue per distinct family, the swapchain extension and (with
     * validation) the validation layer, and the queues taken from the
     * graphics and present families.
     */
    ghost predicate DeviceConfigured()
      reads this`physicalDevice, this`deviceCreateInfo, this`graphicsQueueFamily, this`presentQueueFamily
    {
      && physicalDevice.Some?
      && var device := physicalDevice.value;
      && var indices := QueueFamiliesOf(device.queueFamilies);
      && Suitable(device)
      && indices.IsComplete()
      && deviceCreateInfo.Some?
      && OneQueuePerFamily(indices, deviceCreateInfo.value.queueCreateInfos)
      && deviceCreateInfo.value.enabledExtensions == DeviceExtensions
      && deviceCreateInfo.value.enabledLayers == (if validationEnabled then ValidationLayers else [])
      && graphicsQueueFamily == indices.graphicsFamily
      && presentQueueFamily == indices.presentFamily
    }

    /**
     * What `CreateSwapChain` leaves: the swapchain was requested as
     * negotiation with the chosen device's surface support decides, its
     * images are `images`, and the format and extent are the ones requested.
     */
    ghost predicate SwapChainRequested(images: seq<Image>)
      reads this`physicalDevice, this`swapChainCreateInfo, this`swapChainImages
      reads this`swapChainImageFormat, this`swapChainExtent
    {
      && physicalDevice.Some?
      && Suitable(physicalDevice.value)
      && ExtentChoosable(physicalDevice.value.swapChainSupport.capabilities)
      && swapChainCreateInfo ==
           Some(SwapchainCreateInfoFor(physicalDevice.value.swapChainSupport, QueueFamiliesOf(physicalDevice.value.queueFamilies), window))
      && swapChainImages == images
      && swapChainImageFormat == swapChainCreateInfo.value.imageFormat
      && swapChainExtent == swapChainCreateInfo.value.imageExtent
    }

    /** What the swapchain stages leave when they all succeed: the requested swapchain, with one view and one framebuffer per image. */
    ghost predicate SwapChainConfigured(images: seq<Image>)
      reads this`physicalDevice, this`swapChainCreateInfo, this`swapChainImages, this`swapChainImageViews
      reads this`swapChainFrameBuffers, this`swapChainImageFormat, this`swapChainExtent
    {
      SwapChainRequested(images) && Valid()
    }

    /**
     * What the command and synchronisation stages leave when they succeed:
     * the pool serves the graphics family, the buffer is freshly allocated
     * and the fence starts signaled.
     */
    ghost predicate CommandObjectsReady()
      reads this`physicalDevice, this`commandPoolFamily, this`commandBuffer, this`inFlightFence
    {
      && physicalDevice.Some?
      && commandPoolFamily == QueueFamiliesOf(physicalDevice.value.queueFamilies).graphicsFamily
      && commandBuffer == Some(Initial)
      && inFlightFence == Some(Signaled)
    }

    /** No frame has been drawn: nothing submitted, nothing waited on, no driver call made. */
    predicate Idle()
      reads this`pendingSubmissions, this`blocked, this`misuse, this`calls
    {
      pendingSubmissions == 0 && !blocked && !misuse && calls == []
    }

    constructor(validationEnabled: bool, window: Extent2D)
      ensures this.validationEnabled == validationEnabled && this.window == window
      ensures Fresh()
    {
      this.validationEnabled := validationEnabled;
      this.window := window;
      physicalDevice := None;
      deviceCreateInfo := None;
      graphicsQueueFamily := None;
      presentQueueFamily := None;
      swapChainCreateInfo := None;
      swapChainImages := [];
      swapChainImageViews := [];
      swapChainFrameBuffers := [];
      swapChainImageFormat := VK_FORMAT_UNDEFINED;
      swapChainExtent := Extent2D(0, 0);
      commandPoolFamily := None;
      commandBuffer := None;
      inFlightFence := None;
      pendingSubmissions := 0;
      blocked := false;
      misuse := false;
      lifecycle := [];
      calls := [];
    }

    /**
     * Runs the creation stages in order. It gives up before creating anything
     * when validation is enabled and a requested layer is missing; otherwise
     * it stops at the first stage that throws (or finds no device), having
     * created a proper prefix of the full creation sequence; when no stage
     * fails it has created everything, with one view and one framebuffer per
     * swapchain image and the fence signaled.
     */
    method Init(answers: DriverAnswers) returns (outcome: InitOutcome)
      requires Fresh()
      requires ChosenExtentChoosable(answers.devices)
      modifies this
      ensures outcome == ValidationLayersUnavailable <==>
        validationEnabled && !AllAvailable(ValidationLayers, answers.availableLayers)
      ensures outcome == ValidationLayersUnavailable ==> Fresh()
      ensures outcome != ValidationLayersUnavailable ==> physicalDevice == FirstSuitableDevice(answers.devices)
      ensures outcome == Aborted(NoSuitableDevice) <==>
        outcome != ValidationLayersUnavailable && FirstSuitableDevice(answers.devices).None?
      ensures outcome.Aborted? ==> lifecycle < Lifecycle.InitEvents(validationEnabled, |answers.swapChainImages|)
      ensures outcome == Initialized <==>
        && !(validationEnabled && !AllAvailable(ValidationLayers, answers.availableLayers))
        && FirstSuitableDevice(answers.devices).Some?
        && answers.deviceResult == VK_SUCCESS
        && (answers.failingFramebuffer.None? || answers.failingFramebuffer.value >= |answers.swapChainImages|)
        && answers.commandPoolResult == VK_SUCCESS
        && answers.commandBufferResult == VK_SUCCESS
      ensures outcome == Initialized ==>
        && lifecycle == Lifecycle.InitEvents(validationEnabled, |answers.swapChainImages|)
        && DeviceConfigured()
        && SwapChainConfigured(answers.swapChainImages)
        && CommandObjectsReady()
        && Idle()
        && Frame() == InitialFrame
    {
      if validationEnabled {
        var supported := CheckValidationLayerSupport(ValidationLayers, answers.availableLayers);
        if !supported {
          return ValidationLayersUnavailable;
        }
      }
      var error := CreateDeviceObjects(answers.devices, answers.deviceResult, |answers.swapChainImages|);
      if error.None? {
        error := CreatePresentationObjects(answers);
      }
      outcome := if error.None? then Initialized else Aborted(error.value);
    }

    /**
     * The first stages of `Init`: `CreateInstance`, `SetupDebugMessenger`,
     * `CreateSurface`, `PickPhysicalDevice` and `CreateLogicalDevice`. Stops
     * when no device is suitable or the device cannot be created.
     */
    method CreateDeviceObjects(devices: seq<PhysicalDevice>, deviceResult: VkResult, ghost imageCount: nat)
      returns (error: Option<InitError>)
      requires lifecycle == [] && physicalDevice.None? && Idle()
      modifies this`lifecycle, this`physicalDevice, this`deviceCreateInfo, this`graphicsQueueFamily, this`presentQueueFamily
      ensures Idle()
      ensures physicalDevice == FirstSuitableDevice(devices)
      ensures error == Some(NoSuitableDevice) <==> FirstSuitableDevice(devices).None?
      ensures error == Some(LogicalDeviceCreationFailed) <==>
        FirstSuitableDevice(devices).Some? && deviceResult != VK_SUCCESS
      ensures error.None? <==> FirstSuitableDevice(devices).Some? && deviceResult == VK_SUCCESS
      ensures error.Some? ==> lifecycle < Lifecycle.InitEvents(validationEnabled, imageCount)
      ensures error.None? ==> lifecycle == Lifecycle.DeviceEvents(validationEnabled) && DeviceConfigured()
    {
      CreateInstance();
      SetupDebugMessenger();
      CreateSurface();
      PickPhysicalDevice(devices);
      var beforeDevice := Lifecycle.DeviceEvents(validationEnabled)[..|lifecycle|];
      assert lifecycle == beforeDevice;
      Lifecycle.InitEventsByPhase(validationEnabled, imageCount);
      if physicalDevice.None? {
        Lifecycle.StopsWithin([], lifecycle, Lifecycle.DeviceEvents(validationEnabled),
          Lifecycle.SwapChainObjectEvents(imageCount) + Lifecycle.CommandAndSyncEvents());
        return Some(NoSuitableDevice);
      }
      var created := CreateLogicalDevice(deviceResult);
      if !created {
        Lifecycle.StopsWithin([], lifecycle, Lifecycle.DeviceEvents(validationEnabled),
          Lifecycle.SwapChainObjectEvents(imageCount) + Lifecycle.CommandAndSyncEvents());
        return Some(LogicalDeviceCreationFailed);
      }
      return None;
    }

    /**
     * The stages of `Init` after the logical device exists: the swapchain
     * stages, then the command and synchronisation stages.
     */
    method CreatePresentationObjects(answers: DriverAnswers) returns (error: Option<InitError>)
      requires DeviceConfigured()
      requires ExtentChoosable(physicalDevice.value.swapChainSupport.capabilities)
      requires lifecycle == Lifecycle.DeviceEvents(validationEnabled) && Idle()
      modifies this`swapChainCreateInfo, this`swapChainImages, this`swapChainImageFormat, this`swapChainExtent
      modifies this`swapChainImageViews, this`swapChainFrameBuffers, this`lifecycle
      modifies this`commandPoolFamily, this`commandBuffer, this`inFlightFence
      ensures Idle()
      ensures error.Some? ==> error != Some(NoSuitableDevice) && error != Some(LogicalDeviceCreationFailed)
      ensures error.None? <==>
        && (answers.failingFramebuffer.None? || answers.failingFramebuffer.value >= |answers.swapChainImages|)
        && answers.commandPoolResult == VK_SUCCESS
        && answers.commandBufferResult == VK_SUCCESS
      ensures error.Some? ==> lifecycle < Lifecycle.InitEvents(validationEnabled, |answers.swapChainImages|)
      ensures error.None? ==>
        && lifecycle == Lifecycle.InitEvents(validationEnabled, |answers.swapChainImages|)
        && SwapChainConfigured(answers.swapChainImages)
        && CommandObjectsReady()
    {
      error := CreateSwapChainObjects(answers.swapChainImages, answers.failingFramebuffer);
      if error.None? {
        error := CreateCommandObjects(answers.commandPoolResult, answers.commandBufferResult);
      }
    }

    /**
     * The middle stages of `Init`: `CreateSwapChain`, `CreateImageViews`,
     * `CreateRenderPass`, `CreateGraphicsPipeline` and `CreateFrameBuffers`.
     * Stops at the first framebuffer the driver refuses.
     */
    method CreateSwapChainObjects(images: seq<Image>, failingFramebuffer: Option<nat>) returns (error: Option<InitError>)
      requires physicalDevice.Some? && Suitable(physicalDevice.value)
      requires ExtentChoosable(physicalDevice.value.swapChainSupport.capabilities)
      requires lifecycle == Lifecycle.DeviceEvents(validationEnabled)
      modifies this`swapChainCreateInfo, this`swapChainImages, this`swapChainImageFormat, this`swapChainExtent
      modifies this`swapChainImageViews, this`swapChainFrameBuffers, this`lifecycle
      ensures error.None? <==> failingFramebuffer.None? || failingFramebuffer.value >= |images|
      ensures error.Some? ==> error == Some(FramebufferCreationFailed(failingFramebuffer.value))
      ensures error.Some? ==> lifecycle < Lifecycle.InitEvents(validationEnabled, |images|)
      ensures error.None? ==>
        && lifecycle == Lifecycle.DeviceEvents(validationEnabled) + Lifecycle.SwapChainObjectEvents(|images|)
        && SwapChainConfigured(images)
    {
      var n := |images|;
      var start := lifecycle;
      CreateSwapChain(images);
      assert SwapChainRequested(images);
      CreateImageViews();
      CreateRenderPass();
      CreateGraphicsPipeline();
      var beforeFramebuffers := lifecycle;
      assert beforeFramebuffers ==
        start + ([Lifecycle.Create(Lifecycle.SwapChain)] + Lifecycle.ImageViewEvents(n) + Lifecycle.PipelineEvents());
      var created := CreateFrameBuffers(failingFramebuffer);
      if !created {
        var f := failingFramebuffer.value;
        Lifecycle.FramebufferFailureStopsEarly(validationEnabled, n, f);
        return Some(FramebufferCreationFailed(f));
      }
      return None;
    }

    /**
     * The last stages of `Init`: `CreateCommandPool`, `CreateCommandBuffer`
     * and `CreateSyncObjects`. Stops when the pool or the buffer cannot be made.
     */
    method CreateCommandObjects(poolResult: VkResult, bufferResult: VkResult) returns (error: Option<InitError>)
      requires physicalDevice.Some? && QueueFamiliesOf(physicalDevice.value.queueFamilies).IsComplete()
      requires lifecycle == Lifecycle.DeviceEvents(validationEnabled) + Lifecycle.SwapChainObjectEvents(|swapChainImages|)
      modifies this`commandPoolFamily, this`commandBuffer, this`inFlightFence, this`lifecycle
      ensures error == Some(CommandPoolCreationFailed) <==> poolResult != VK_SUCCESS
      ensures error == Some(CommandBufferAllocationFailed) <==> poolResult == VK_SUCCESS && bufferResult != VK_SUCCESS
      ensures error.None? <==> poolResult == VK_SUCCESS && bufferResult == VK_SUCCESS
      ensures error.Some? ==> lifecycle < Lifecycle.InitEvents(validationEnabled, |swapChainImages|)
      ensures error.None? ==>
        lifecycle == Lifecycle.InitEvents(validationEnabled, |swapChainImages|) && CommandObjectsReady()
    {
      var start := lifecycle;
      Lifecycle.InitEventsByPhase(validationEnabled, |swapChainImages|);
      var created := CreateCommandPool(poolResult);
      if !created {
        Lifecycle.StopsWithin(start, [], Lifecycle.CommandAndSyncEvents(), []);
        return Some(CommandPoolCreationFailed);
      }
      created := CreateCommandBuffer(bufferResult);
      if !created {
        assert lifecycle == start + Lifecycle.CommandAndSyncEvents()[..1];
        Lifecycle.StopsWithin(start, Lifecycle.CommandAndSyncEvents()[..1], Lifecycle.CommandAndSyncEvents(), []);
        return Some(CommandBufferAllocationFailed);
      }
      CreateSyncObjects();
      assert lifecycle == start + Lifecycle.CommandAndSyncEvents();
      return None;
    }

    method CreateInstance()
      modifies this`lifecycle
      ensures lifecycle == old(lifecycle) + [Lifecycle.Create(Lifecycle.Instance)]
    {
      lifecycle := lifecycle + [Lifecycle.Create(Lifecycle.Instance)];
    }

    /** Creates the debug messenger only when validation layers are enabled. */
    method SetupDebugMessenger()
      modifies this`lifecycle
      ensures lifecycle == old(lifecycle) + if validationEnabled then [Lifecycle.Create(Lifecycle.DebugMessenger)] else []
    {
      if !validationEnabled {
        return;
      }
      lifecycle := lifecycle + [Lifecycle.Create(Lifecycle.DebugMessenger)];
    }

    method CreateSurface()
      modifies this`lifecycle
      ensures lifecycle == old(lifecycle) + [Lifecycle.Create(Lifecycle.Surface)]
    {
      lifecycle := lifecycle + [Lifecycle.Create(Lifecycle.Surface)];
    }

    /**
     * Keeps the first device in enumeration order that `IsDeviceSuitable`
     * accepts; when there is none the handle keeps its previous (null) value.
     */
    method PickPhysicalDevice(devices: seq<PhysicalDevice>)
      modifies this`physicalDevice
      ensures FirstSuitableDevice(devices).Some? ==> physicalDevice == FirstSuitableDevice(devices)
      ensures FirstSuitableDevice(devices).None? ==> physicalDevice == old(physicalDevice)
      ensures physicalDevice != old(physicalDevice) ==> physicalDevice.Some? && Suitable(physicalDevice.value)
    {
      for k := 0 to |devices|
        invariant forall j :: 0 <= j < k ==> !Suitable(devices[j])
        invariant physicalDevice == old(physicalDevice)
      {
        var suitable, _ := IsDeviceSuitable(devices[k]);
        if suitable {
          physicalDevice := Some(devices[k]);
          FirstSuitableDeviceAt(devices, k);
          return;
        }
      }
      NoSuitableDeviceChosen(devices);
    }

    /**
     * Requests one queue per distinct family among the graphics and present
     * family of the chosen device, with the swapchain extension and, when
     * validation is enabled, the validation layers; throws when the driver
     * refuses, and otherwise takes queue 0 of the present and graphics families.
     */
    method CreateLogicalDevice(deviceResult: VkResult) returns (created: bool)
      requires physicalDevice.Some? && QueueFamiliesOf(physicalDevice.value.queueFamilies).IsComplete()
      modifies this`deviceCreateInfo, this`graphicsQueueFamily, this`presentQueueFamily, this`lifecycle
      ensures var indices := QueueFamiliesOf(physicalDevice.value.queueFamilies);
        && deviceCreateInfo.Some?
        && OneQueuePerFamily(indices, deviceCreateInfo.value.queueCreateInfos)
        && deviceCreateInfo.value.enabledExtensions == DeviceExtensions
        && deviceCreateInfo.value.enabledLayers == (if validationEnabled then ValidationLayers else [])
      ensures created <==> deviceResult == VK_SUCCESS
      ensures created ==>
        && lifecycle == old(lifecycle) + [Lifecycle.Create(Lifecycle.Device)]
        && graphicsQueueFamily == QueueFamiliesOf(physicalDevice.value.queueFamilies).graphicsFamily
        && presentQueueFamily == QueueFamiliesOf(physicalDevice.value.queueFamilies).presentFamily
      ensures !created ==>
        lifecycle == old(lifecycle) && graphicsQueueFamily == old(graphicsQueueFamily) &&
        presentQueueFamily == old(presentQueueFamily)
    {
      var indices := FindQueueFamilies(physicalDevice.value.queueFamilies);
      var queueCreateInfos := BuildQueueCreateInfos(indices);
      deviceCreateInfo := Some(DeviceCreateInfo(
        queueCreateInfos,
        DeviceExtensions,
        if validationEnabled then ValidationLayers else []));
      if deviceResult != VK_SUCCESS {
        return false;
      }
      lifecycle := lifecycle + [Lifecycle.Create(Lifecycle.Device)];
      presentQueueFamily := indices.presentFamily;
      graphicsQueueFamily := indices.graphicsFamily;
      return true;
    }

    /**
     * Negotiates the swapchain parameters from the chosen device's surface
     * support, creates the swapchain, and keeps the images the driver returns
     * together with the chosen format and extent.
     */
    method CreateSwapChain(images: seq<Image>)
      requires physicalDevice.Some? && QueueFamiliesOf(physicalDevice.value.queueFamilies).IsComplete()
      requires |physicalDevice.value.swapChainSupport.formats| > 0
      requires ExtentChoosable(physicalDevice.value.swapChainSupport.capabilities)
      modifies this`swapChainCreateInfo, this`swapChainImages, this`swapChainImageFormat, this`swapChainExtent, this`lifecycle
      ensures swapChainCreateInfo ==
        Some(SwapchainCreateInfoFor(physicalDevice.value.swapChainSupport, QueueFamiliesOf(physicalDevice.value.queueFamilies), window))
      ensures swapChainImages == images
      ensures swapChainImageFormat == swapChainCreateInfo.value.imageFormat
      ensures swapChainExtent == swapChainCreateInfo.value.imageExtent
      ensures lifecycle == old(lifecycle) + [Lifecycle.Create(Lifecycle.SwapChain)]
    {
      var swapChainSupport := physicalDevice.value.swapChainSupport;
      var surfaceFormat := ChooseSwapSurfaceFormat(swapChainSupport.formats);
      var presentMode := ChooseSwapPresentMode(swapChainSupport.presentModes);
      var extent := ChooseSwapExtent(swapChainSupport.capabilities, window);
      var imageCount := AddOneU32(swapChainSupport.capabilities.minImageCount);
      if swapChainSupport.capabilities.maxImageCount > 0 && imageCount > swapChainSupport.capabilities.maxImageCount {
        imageCount := swapChainSupport.capabilities.maxImageCount;
      }
      var indices := FindQueueFamilies(physicalDevice.value.queueFamilies);
      var sharing;
      if indices.graphicsFamily != indices.presentFamily {
        sharing := ImageSharing(Concurrent, [indices.graphicsFamily.value, indices.presentFamily.value]);
      } else {
        sharing := ImageSharing(Exclusive, []);
      }
      swapChainCreateInfo := Some(SwapchainCreateInfo(
        imageCount, surfaceFormat.format, surfaceFormat.colorSpace, extent, 1, sharing, presentMode));
      lifecycle := lifecycle + [Lifecycle.Create(Lifecycle.SwapChain)];
      swapChainImages := images;
      swapChainImageFormat := surfaceFormat.format;
      swapChainExtent := extent;
    }

    /** Resizes the view list to the image count and creates view `i` of image `i`, in index order. */
    method CreateImageViews()
      modifies this`swapChainImageViews, this`lifecycle
      ensures |swapChainImageViews| == |swapChainImages|
      ensures forall i :: 0 <= i < |swapChainImageViews| ==>
        swapChainImageViews[i] == ImageView(swapChainImages[i], swapChainImageFormat)
      ensures lifecycle == old(lifecycle) + Lifecycle.ImageViewEvents(|swapChainImages|)
    {
      swapChainImageViews := seq(|swapChainImages|, _ => NullImageView);
      for i := 0 to |swapChainImages|
        invariant |swapChainImageViews| == |swapChainImages|
        invariant forall k :: 0 <= k < i ==> swapChainImageViews[k] == ImageView(swapChainImages[k], swapChainImageFormat)
        invariant lifecycle == old(lifecycle) + Lifecycle.ImageViewEvents(i)
      {
        swapChainImageViews := swapChainImageViews[i := ImageView(swapChainImages[i], swapChainImageFormat)];
        assert Lifecycle.ImageViewEvents(i + 1) == Lifecycle.ImageViewEvents(i) + [Lifecycle.Create(Lifecycle.ImageView(i))];
        lifecycle := lifecycle + [Lifecycle.Create(Lifecycle.ImageView(i))];
      }
    }

    method CreateRenderPass()
      modifies this`lifecycle
      ensures lifecycle == old(lifecycle) + [Lifecycle.Create(Lifecycle.RenderPass)]
    {
      lifecycle := lifecycle + [Lifecycle.Create(Lifecycle.RenderPass)];
    }

    /**
     * Creates the vertex and fragment shader modules, the pipeline layout and
     * the pipeline, then destroys the two shader modules, fragment first.
     */
    method CreateGraphicsPipeline()
      modifies this`lifecycle
      ensures lifecycle == old(lifecycle) + Lifecycle.GraphicsPipelineEvents()
    {
      lifecycle := lifecycle + [
        Lifecycle.Create(Lifecycle.ShaderModule(Lifecycle.Vertex)),
        Lifecycle.Create(Lifecycle.ShaderModule(Lifecycle.Fragment)),
        Lifecycle.Create(Lifecycle.PipelineLayout),
        Lifecycle.Create(Lifecycle.Pipeline),
        Lifecycle.Destroy(Lifecycle.ShaderModule(Lifecycle.Fragment)),
        Lifecycle.Destroy(Lifecycle.ShaderModule(Lifecycle.Vertex))];
    }

    /**
     * Resizes the framebuffer list to the view count and creates framebuffer
     * `i` on view `i` at the swapchain extent, in index order; throws at the
     * first framebuffer the driver refuses, leaving the rest null.
     */
    method CreateFrameBuffers(failingFramebuffer: Option<nat>) returns (created: bool)
      modifies this`swapChainFrameBuffers, this`lifecycle
      ensures |swapChainFrameBuffers| == |swapChainImageViews|
      ensures created <==> failingFramebuffer.None? || failingFramebuffer.value >= |swapChainImageViews|
      ensures var built := if created then |swapChainImageViews| else failingFramebuffer.value;
        && (forall i :: 0 <= i < built ==>
              swapChainFrameBuffers[i] == Framebuffer(swapChainImageViews[i], swapChainExtent.width, swapChainExtent.height, 1))
        && (forall i :: built <= i < |swapChainFrameBuffers| ==> swapChainFrameBuffers[i] == NullFramebuffer)
        && lifecycle == old(lifecycle) + Lifecycle.FramebufferEvents(built)
    {
      swapChainFrameBuffers := seq(|swapChainImageViews|, _ => NullFramebuffer);
      for i := 0 to |swapChainImageViews|
        invariant |swapChainFrameBuffers| == |swapChainImageViews|
        invariant failingFramebuffer.Some? ==> failingFramebuffer.value >= i
        invariant forall k :: 0 <= k < i ==>
          swapChainFrameBuffers[k] == Framebuffer(swapChainImageViews[k], swapChainExtent.width, swapChainExtent.height, 1)
        invariant forall k :: i <= k < |swapChainFrameBuffers| ==> swapChainFrameBuffers[k] == NullFramebuffer
        invariant lifecycle == old(lifecycle) + Lifecycle.FramebufferEvents(i)
      {
        if failingFramebuffer == Some(i) {
          return false;
        }
        swapChainFrameBuffers := swapChainFrameBuffers[i := Framebuffer(swapChainImageViews[i], swapChainExtent.width, swapChainExtent.height, 1)];
        assert Lifecycle.FramebufferEvents(i + 1) == Lifecycle.FramebufferEvents(i) + [Lifecycle.Create(Lifecycle.Framebuffer(i))];
        lifecycle := lifecycle + [Lifecycle.Create(Lifecycle.Framebuffer(i))];
      }
      return true;
    }

    /** Creates the command pool for the graphics family; throws when the driver refuses. */
    method CreateCommandPool(poolResult: VkResult) returns (created: bool)
      requires physicalDevice.Some? && QueueFamiliesOf(physicalDevice.value.queueFamilies).IsComplete()
      modifies this`commandPoolFamily, this`lifecycle
      ensures created <==> poolResult == VK_SUCCESS
      ensures created ==>
        commandPoolFamily == QueueFamiliesOf(physicalDevice.value.queueFamilies).graphicsFamily &&
        lifecycle == old(lifecycle) + [Lifecycle.Create(Lifecycle.CommandPool)]
      ensures !created ==> commandPoolFamily == old(commandPoolFamily) && lifecycle == old(lifecycle)
    {
      var queueFamilyIndices := FindQueueFamilies(physicalDevice.value.queueFamilies);
      if poolResult != VK_SUCCESS {
        return false;
      }
      commandPoolFamily := Some(queueFamilyIndices.graphicsFamily.value);
      lifecycle := lifecycle + [Lifecycle.Create(Lifecycle.CommandPool)];
      return true;
    }

    /** Allocates the one primary command buffer, which starts in the initial state; throws when the driver refuses. */
    method CreateCommandBuffer(bufferResult: VkResult) returns (created: bool)
      modifies this`commandBuffer, this`lifecycle
      ensures created <==> bufferResult == VK_SUCCESS
      ensures created ==> commandBuffer == Some(Initial) && lifecycle == old(lifecycle) + [Lifecycle.Create(Lifecycle.CommandBuffer)]
      ensures !created ==> commandBuffer == old(commandBuffer) && lifecycle == old(lifecycle)
    {
      if bufferResult != VK_SUCCESS {
        return false;
      }
      commandBuffer := Some(Initial);
      lifecycle := lifecycle + [Lifecycle.Create(Lifecycle.CommandBuffer)];
      return true;
    }

    /** Creates the two semaphores and the fence, the fence already signaled so that the first wait returns. */
    method CreateSyncObjects()
      modifies this`inFlightFence, this`lifecycle
      ensures inFlightFence == Some(Signaled)
      ensures lifecycle == old(lifecycle) + Lifecycle.SyncObjectEvents()
    {
      lifecycle := lifecycle + [Lifecycle.Create(Lifecycle.ImageAvailableSemaphore)];
      lifecycle := lifecycle + [Lifecycle.Create(Lifecycle.RenderFinishedSemaphore)];
      inFlightFence := Some(Signaled);
      lifecycle := lifecycle + [Lifecycle.Create(Lifecycle.InFlightFence)];
    }

    /**
     * Releases the semaphores, the fence, the command pool (and with it the
     * command buffer), every framebuffer, the pipeline, its layout, the render
     * pass, every image view, the swapchain, the device, the debug messenger
     * when validation is enabled, the surface and the instance, in that order.
     */
    method Destroy() returns (destroyed: bool)
      modifies this`lifecycle
      ensures destroyed
      ensures lifecycle == old(lifecycle) +
        Lifecycle.TeardownEvents(validationEnabled, |swapChainFrameBuffers|, |swapChainImageViews|)
    {
      lifecycle := lifecycle + [
        Lifecycle.Destroy(Lifecycle.RenderFinishedSemaphore),
        Lifecycle.Destroy(Lifecycle.ImageAvailableSemaphore),
        Lifecycle.Destroy(Lifecycle.InFlightFence),
        Lifecycle.Destroy(Lifecycle.CommandPool)];
      var beforeFramebuffers := lifecycle;
      for i := 0 to |swapChainFrameBuffers|
        invariant lifecycle == beforeFramebuffers + Lifecycle.FramebufferTeardown(i)
      {
        assert Lifecycle.FramebufferTeardown(i + 1) == Lifecycle.FramebufferTeardown(i) + [Lifecycle.Destroy(Lifecycle.Framebuffer(i))];
        lifecycle := lifecycle + [Lifecycle.Destroy(Lifecycle.Framebuffer(i))];
      }
      lifecycle := lifecycle + [
        Lifecycle.Destroy(Lifecycle.Pipeline),
        Lifecycle.Destroy(Lifecycle.PipelineLayout),
        Lifecycle.Destroy(Lifecycle.RenderPass)];
      var beforeViews := lifecycle;
      for i := 0 to |swapChainImageViews|
        invariant lifecycle == beforeViews + Lifecycle.ImageViewTeardown(i)
      {
        assert Lifecycle.ImageViewTeardown(i + 1) == Lifecycle.ImageViewTeardown(i) + [Lifecycle.Destroy(Lifecycle.ImageView(i))];
        lifecycle := lifecycle + [Lifecycle.Destroy(Lifecycle.ImageView(i))];
      }
      var beforeDevice := lifecycle;
      lifecycle := lifecycle + [Lifecycle.Destroy(Lifecycle.SwapChain), Lifecycle.Destroy(Lifecycle.Device)];
      if validationEnabled {
        lifecycle := lifecycle + [Lifecycle.Destroy(Lifecycle.DebugMessenger)];
      }
      lifecycle := lifecycle + [Lifecycle.Destroy(Lifecycle.Surface), Lifecycle.Destroy(Lifecycle.Instance)];
      assert lifecycle == beforeDevice + Lifecycle.TeardownBack(validationEnabled);
      return true;
    }

    /**
     * Records one render pass on the framebuffer of the acquired image: bind
     * the pipeline, set viewport and scissor to the swapchain extent, draw 3
     * vertices once. Failed begin and end are only logged.
     */
    method RecordCommandBuffer(imageIndex: nat, beginResult: VkResult, endResult: VkResult)
      requires HasFrameObjects()
      requires imageIndex < |swapChainFrameBuffers|
      modifies this`commandBuffer, this`misuse, this`calls
      ensures HasFrameObjects()
      ensures Frame() == AfterRecord(old(Frame()), beginResult, endResult)
      ensures calls == old(calls) + RecordedCalls(imageIndex, swapChainExtent)
    {
      calls := calls + [BeginCommandBuffer];
      if beginResult == VK_SUCCESS {
        misuse := misuse || commandBuffer.value == InFlight;
        commandBuffer := Some(Recording);
      }
      // the vkCmd* calls and vkEndCommandBuffer are only valid while recording
      misuse := misuse || commandBuffer.value != Recording;
      calls := calls + [BeginRenderPass(imageIndex, swapChainExtent), BindPipeline,
                        SetViewport(swapChainExtent), SetScissor(swapChainExtent), Draw(3, 1, 0, 0), EndRenderPass];
      calls := calls + [EndCommandBuffer];
      if commandBuffer.value == Recording {
        commandBuffer := Some(if endResult == VK_SUCCESS then Executable else Invalid);
      }
    }

    /**
     * One frame: wait for the fence, reset it, acquire an image, reset and
     * record the command buffer, submit it (waiting on image-available,
     * signaling render-finished and the fence), and present (waiting on
     * render-finished). Only a failed acquire and a failed present return
     * early; a wait on a fence nothing will signal never returns.
     */
    method DrawFrame(a: FrameAnswers)
      requires HasFrameObjects() && !blocked
      requires Valid()
      // the driver hands out the index of one of the swapchain's images
      requires a.acquireResult == VK_SUCCESS ==> a.imageIndex < |swapChainImages|
      modifies this`inFlightFence, this`commandBuffer, this`pendingSubmissions, this`blocked, this`misuse, this`calls
      ensures HasFrameObjects()
      ensures Frame() == NextFrame(old(Frame()), a)
      ensures calls == old(calls) + FrameCalls(old(Frame()), a, swapChainExtent)
    {
      ghost var start, called := Frame(), calls;
      AwaitInFlightFence(a.waitResult);
      if blocked {
        return;
      }
      ResetInFlightFence(a.resetFenceResult);
      calls := calls + [AcquireNextImage(ImageAvailable)];
      ghost var reset := AfterResetFence(AfterWait(start, a.waitResult), a.resetFenceResult);
      assert Frame() == reset;
      assert calls == called + [WaitForFence, ResetFence, AcquireNextImage(ImageAvailable)];
      if a.acquireResult != VK_SUCCESS {
        return;
      }
      ResetFrameCommandBuffer(a.resetCommandBufferResult);
      RecordCommandBuffer(a.imageIndex, a.beginResult, a.endResult);
      SubmitCommandBuffer(a.submitResult);
      calls := calls + [QueuePresent(RenderFinished, a.imageIndex)];
      assert calls == called + FullFrame(a.imageIndex, swapChainExtent);
      if a.presentResult != VK_SUCCESS {
        // the early return only skips the trace line
        return;
      }
    }

    /** `vkWaitForFences` on the in-flight fence with no timeout: it never returns when nothing will signal the fence. */
    method AwaitInFlightFence(result: VkResult)
      requires HasFrameObjects() && !blocked
      modifies this`inFlightFence, this`commandBuffer, this`pendingSubmissions, this`blocked, this`calls
      ensures HasFrameObjects()
      ensures Frame() == AfterWait(old(Frame()), result)
      ensures calls == old(calls) + [WaitForFence]
    {
      calls := calls + [WaitForFence];
      if inFlightFence.value == Unsignaled {
        blocked := true;
        return;
      }
      if result == VK_SUCCESS {
        inFlightFence := Some(Signaled);
        pendingSubmissions := 0;
        if commandBuffer.value == InFlight {
          commandBuffer := Some(Executable);
        }
      }
    }

    /** `vkResetFences` on the in-flight fence; a failure is only logged. */
    method ResetInFlightFence(result: VkResult)
      requires HasFrameObjects()
      modifies this`inFlightFence, this`misuse, this`calls
      ensures HasFrameObjects()
      ensures Frame() == AfterResetFence(old(Frame()), result)
      ensures calls == old(calls) + [ResetFence]
    {
      calls := calls + [ResetFence];
      if result == VK_SUCCESS {
        misuse := misuse || inFlightFence.value == AwaitingGpu;
        inFlightFence := Some(Unsignaled);
      }
    }

    /** `vkResetCommandBuffer`; a failure is only logged. */
    method ResetFrameCommandBuffer(result: VkResult)
      requires HasFrameObjects()
      modifies this`commandBuffer, this`misuse, this`calls
      ensures HasFrameObjects()
      ensures Frame() == AfterResetCommandBuffer(old(Frame()), result)
      ensures calls == old(calls) + [ResetCommandBuffer]
    {
      calls := calls + [ResetCommandBuffer];
      if result == VK_SUCCESS {
        misuse := misuse || commandBuffer.value == InFlight;
        commandBuffer := Some(Initial);
      }
    }

    /** `vkQueueSubmit` of the command buffer, waiting on image-available, signaling render-finished and the fence; a failure is only logged. */
    method SubmitCommandBuffer(result: VkResult)
      requires HasFrameObjects()
      modifies this`inFlightFence, this`commandBuffer, this`pendingSubmissions, this`misuse, this`calls
      ensures HasFrameObjects()
      ensures Frame() == AfterSubmit(old(Frame()), result)
      ensures calls == old(calls) + [QueueSubmit(ImageAvailable, RenderFinished, true)]
    {
      calls := calls + [QueueSubmit(ImageAvailable, RenderFinished, true)];
      misuse := misuse || commandBuffer.value != Executable || inFlightFence.value != Unsignaled;
      if result == VK_SUCCESS {
        inFlightFence := Some(AwaitingGpu);
        commandBuffer := Some(InFlight);
        pendingSubmissions := pendingSubmissions + 1;
      }
    }
  }

  /**
   * The renderer's whole life as the application drives it: construct, `Init`,
   * and `Destroy` after a successful `Init`. The objects created and destroyed
   * then respect every dependency, each is released exactly once, and the
   * release order is not the exact reverse of creation. A failed `Init` leaves
   * a proper prefix of the creation sequence.
   */
  method RendererLifetime(validationEnabled: bool, window: Extent2D, answers: DriverAnswers)
    returns (outcome: InitOutcome, events: seq<Lifecycle.Event>)
    requires ChosenExtentChoosable(answers.devices)
    ensures outcome == Initialized ==>
      && events == Lifecycle.Lifetime(validationEnabled, |answers.swapChainImages|)
      && Lifecycle.CreatesParentsFirst(events)
      && Lifecycle.DestroysChildrenFirst(events)
      && Lifecycle.ReleasesEverything(events)
      && Lifecycle.NoRepeats(events)
      && !Lifecycle.LastInFirstOut(events)
    ensures outcome != Initialized ==> events < Lifecycle.InitEvents(validationEnabled, |answers.swapChainImages|)
  {
    var renderer := new EngineRenderer(validationEnabled, window);
    outcome := renderer.Init(answers);
    if outcome == Initialized {
      var _ := renderer.Destroy();
      Lifecycle.LifetimeIsWellOrdered(validationEnabled, |answers.swapChainImages|);
      Lifecycle.TeardownIsNotReverseOfCreation(validationEnabled, |answers.swapChainImages|);
    }
    events := renderer.lifecycle;
  }
}
