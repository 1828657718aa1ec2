/**
 * Swapchain parameter negotiation in `CreateSwapChain`: surface format,
 * present mode, extent, image count and image sharing mode, following the
 * surface rules of the Window System Integration chapter of the Vulkan 1.0
 * specification (`VkSurfaceCapabilitiesKHR`: a current extent width of
 * 0xFFFFFFFF lets the application choose the extent; a `maxImageCount` of 0
 * means there is no upper limit).
 */
module SwapchainNegotiation {
  import opened Wrappers
  import opened Vulkan
  import opened QueueFamilies

  /** The surface format the renderer prefers: 8-bit BGRA in sRGB, non-linear sRGB colour space. */
  const PreferredFormat: SurfaceFormat := SurfaceFormat(VK_FORMAT_B8G8R8A8_SRGB, VK_COLOR_SPACE_SRGB_NONLINEAR_KHR)

  /** The early-return search loop of both choosers: the first entry from position `i` on that equals `wanted`. */
  function FindFrom<T(==)>(available: seq<T>, wanted: T, i: nat): (found: Option<T>)
    requires i <= |available|
    ensures found.Some? <==> wanted in available[i..]
    ensures found.Some? ==> found.value == wanted
    decreases |available| - i
  {
    if i == |available| then None
    else if available[i] == wanted then Some(available[i])
    else
      assert available[i..] == [available[i]] + available[i + 1..];
      FindFrom(available, wanted, i + 1)
  }

  /**
   * `ChooseSwapSurfaceFormat`: the preferred format if the surface offers it
   * anywhere in its list, otherwise the first format offered. The source reads
   * `availableFormats[0]` unguarded, so the list must not be empty.
   */
  function ChooseSwapSurfaceFormat(availableFormats: seq<SurfaceFormat>): (chosen: SurfaceFormat)
    requires |availableFormats| > 0
    ensures chosen in availableFormats
    ensures PreferredFormat in availableFormats ==> chosen == PreferredFormat
    ensures PreferredFormat !in availableFormats ==> chosen == availableFormats[0]
  {
    match FindFrom(availableFormats, PreferredFormat, 0)
    case Some(format) => format
    case None => availableFormats[0]
  }

  /**
   * `ChooseSwapPresentMode`: MAILBOX exactly when the surface offers it,
   * otherwise FIFO, whether or not FIFO is in the list.
   */
  function ChooseSwapPresentMode(availablePresentModes: seq<PresentMode>): (chosen: PresentMode)
    ensures chosen == VK_PRESENT_MODE_MAILBOX_KHR <==> VK_PRESENT_MODE_MAILBOX_KHR in availablePresentModes
    ensures chosen != VK_PRESENT_MODE_MAILBOX_KHR ==> chosen == VK_PRESENT_MODE_FIFO_KHR
  {
    match FindFrom(availablePresentModes, VK_PRESENT_MODE_MAILBOX_KHR, 0)
    case Some(mode) => mode
    case None => VK_PRESENT_MODE_FIFO_KHR
  }

  function Distance(a: int, b: int): nat {
    if a < b then b - a else a - b
  }

  /** `r` is the point of `[lo, hi]` closest to `v`. */
  ghost predicate NearestWithin(r: int, v: int, lo: int, hi: int) {
    lo <= r <= hi && forall w :: lo <= w <= hi ==> Distance(r, v) <= Distance(w, v)
  }

  /** `std::clamp(v, lo, hi)`, which the C++ standard defines only for `lo <= hi`. */
  function Clamp(v: Uint32, lo: Uint32, hi: Uint32): (r: Uint32)
    requires lo <= hi
    ensures NearestWithin(r, v, lo, hi)
  {
    if v < lo then lo else if hi < v then hi else v
  }

  /** The capabilities describe a non-empty range of extents, as the specification guarantees. */
  predicate ExtentRangeValid(capabilities: SurfaceCapabilities) {
    capabilities.minImageExtent.width <= capabilities.maxImageExtent.width &&
    capabilities.minImageExtent.height <= capabilities.maxImageExtent.height
  }

  /**
   * `ChooseSwapExtent`: the surface's current extent when it defines one;
   * when its width is the 0xFFFFFFFF sentinel, the window's dimensions, each
   * moved to the nearest value inside the allowed range.
   */
  function ChooseSwapExtent(capabilities: SurfaceCapabilities, window: Extent2D): (extent: Extent2D)
    requires capabilities.currentExtent.width == UINT32_MAX ==> ExtentRangeValid(capabilities)
    ensures capabilities.currentExtent.width != UINT32_MAX ==> extent == capabilities.currentExtent
    ensures capabilities.currentExtent.width == UINT32_MAX ==>
      NearestWithin(extent.width, window.width, capabilities.minImageExtent.width, capabilities.maxImageExtent.width) &&
      NearestWithin(extent.height, window.height, capabilities.minImageExtent.height, capabilities.maxImageExtent.height)
  {
    if capabilities.currentExtent.width != UINT32_MAX then
      capabilities.currentExtent
    else
      Extent2D(
        Clamp(window.width, capabilities.minImageExtent.width, capabilities.maxImageExtent.width),
        Clamp(window.height, capabilities.minImageExtent.height, capabilities.maxImageExtent.height))
  }

  /** Nearest-point choice leaves a value that already fits unchanged, and the choice is unique. */
  lemma {:induction false} NearestWithinIsUnique(r: int, r': int, v: int, lo: int, hi: int)
    requires NearestWithin(r, v, lo, hi) && NearestWithin(r', v, lo, hi)
    ensures r == r'
    ensures lo <= v <= hi ==> r == v
  {
    assert Distance(r, v) <= Distance(r', v) && Distance(r', v) <= Distance(r, v);
    if lo <= v <= hi {
      assert Distance(r, v) <= Distance(v, v) && Distance(r', v) <= Distance(v, v);
    } else if v < lo {
      assert Distance(r, v) <= Distance(lo, v) && Distance(r', v) <= Distance(lo, v);
    } else {
      assert Distance(r, v) <= Distance(hi, v) && Distance(r', v) <= Distance(hi, v);
    }
  }

  /** `minImageCount + 1` in `uint32_t` arithmetic, which wraps to 0 at UINT32_MAX. */
  function AddOneU32(x: Uint32): Uint32 {
    (x + 1) % (UINT32_MAX + 1)
  }

  function Min(a: int, b: int): int {
    if a < b then a else b
  }

  /**
   * The image count requested in `CreateSwapChain`: one more than the minimum,
   * lowered to the maximum when the surface has one (a maximum of 0 is no limit).
   */
  function ImageCount(capabilities: SurfaceCapabilities): (count: Uint32)
    ensures capabilities.maxImageCount > 0 ==> count <= capabilities.maxImageCount
    ensures capabilities.minImageCount < UINT32_MAX && capabilities.maxImageCount > 0 ==>
      count == Min(capabilities.minImageCount + 1, capabilities.maxImageCount)
    ensures capabilities.minImageCount < UINT32_MAX && capabilities.maxImageCount == 0 ==>
      count == capabilities.minImageCount + 1
    ensures (capabilities.minImageCount < UINT32_MAX &&
             (capabilities.maxImageCount == 0 || capabilities.minImageCount <= capabilities.maxImageCount)) ==>
      capabilities.minImageCount <= count
    // the unguarded `+ 1` wraps around
    ensures capabilities.minImageCount == UINT32_MAX ==> count == 0
  {
    var imageCount := AddOneU32(capabilities.minImageCount);
    if capabilities.maxImageCount > 0 && imageCount > capabilities.maxImageCount then
      capabilities.maxImageCount
    else
      imageCount
  }

  datatype SharingMode = Exclusive | Concurrent

  /** `imageSharingMode` with the `pQueueFamilyIndices` list handed over beside it. */
  datatype ImageSharing = ImageSharing(mode: SharingMode, queueFamilyIndices: seq<nat>)

  /**
   * The sharing mode of the swapchain images: shared between the two families
   * when graphics and presentation use different families, owned by the one
   * family otherwise.
   */
  function ImageSharingFor(indices: QueueFamilyIndices): (sharing: ImageSharing)
    requires indices.IsComplete()
    ensures sharing.mode == Concurrent <==> indices.graphicsFamily != indices.presentFamily
    ensures sharing.mode == Concurrent ==>
      sharing.queueFamilyIndices == [indices.graphicsFamily.value, indices.presentFamily.value]
    ensures sharing.mode == Exclusive ==> sharing.queueFamilyIndices == []
  {
    if indices.graphicsFamily != indices.presentFamily then
      ImageSharing(Concurrent, [indices.graphicsFamily.value, indices.presentFamily.value])
    else
      ImageSharing(Exclusive, [])
  }

  /** Concurrent sharing is chosen exactly when the device is asked for queues from two families. */
  lemma {:induction false} SharingMatchesQueueRequests(indices: QueueFamilyIndices)
    requires indices.IsComplete()
    ensures ImageSharingFor(indices).mode == Concurrent <==> |UniqueQueueFamilies(indices)| == 2
    ensures |ImageSharingFor(indices).queueFamilyIndices| != 1
  {
    var g, p := indices.graphicsFamily.value, indices.presentFamily.value;
    if g == p {
      assert indices.graphicsFamily == indices.presentFamily;
    } else {
      assert indices.graphicsFamily != indices.presentFamily;
    }
  }

  /** The negotiated fields of `VkSwapchainCreateInfoKHR`. */
  datatype SwapchainCreateInfo = SwapchainCreateInfo(
    minImageCount: Uint32,
    imageFormat: Format,
    imageColorSpace: ColorSpace,
    imageExtent: Extent2D,
    imageArrayLayers: nat,
    sharing: ImageSharing,
    presentMode: PresentMode)

  /** The parameters `CreateSwapChain` hands to `vkCreateSwapchainKHR`. */
  function SwapchainCreateInfoFor(support: SwapChainSupportDetails, indices: QueueFamilyIndices, window: Extent2D): (info: SwapchainCreateInfo)
    requires |support.formats| > 0
    requires indices.IsComplete()
    requires support.capabilities.currentExtent.width == UINT32_MAX ==> ExtentRangeValid(support.capabilities)
    ensures SurfaceFormat(info.imageFormat, info.imageColorSpace) in support.formats
    ensures PreferredFormat in support.formats ==> SurfaceFormat(info.imageFormat, info.imageColorSpace) == PreferredFormat
    ensures PreferredFormat !in support.formats ==> SurfaceFormat(info.imageFormat, info.imageColorSpace) == support.formats[0]
    ensures info.presentMode == VK_PRESENT_MODE_MAILBOX_KHR <==> VK_PRESENT_MODE_MAILBOX_KHR in support.presentModes
    ensures info.presentMode != VK_PRESENT_MODE_MAILBOX_KHR ==> info.presentMode == VK_PRESENT_MODE_FIFO_KHR
    ensures support.capabilities.currentExtent.width != UINT32_MAX ==> info.imageExtent == support.capabilities.currentExtent
    ensures support.capabilities.currentExtent.width == UINT32_MAX ==>
      NearestWithin(info.imageExtent.width, window.width,
                    support.capabilities.minImageExtent.width, support.capabilities.maxImageExtent.width) &&
      NearestWithin(info.imageExtent.height, window.height,
                    support.capabilities.minImageExtent.height, support.capabilities.maxImageExtent.height)
    ensures support.capabilities.maxImageCount > 0 ==> info.minImageCount <= support.capabilities.maxImageCount
    ensures info.imageArrayLayers == 1
    ensures info.sharing.mode == Concurrent <==> indices.graphicsFamily != indices.presentFamily
  {
    var surfaceFormat := ChooseSwapSurfaceFormat(support.formats);
    SwapchainCreateInfo(
      ImageCount(support.capabilities),
      surfaceFormat.format,
      surfaceFormat.colorSpace,
      ChooseSwapExtent(support.capabilities, window),
      1,
      ImageSharingFor(indices),
      ChooseSwapPresentMode(support.presentModes))
  }
}
