/**
 * The part of the Vulkan 1.0 interface that the renderer's decisions depend on.
 * Every driver query becomes a value handed to the model: the lists of formats
 * and present modes, the surface capabilities, one record per queue family and
 * one result code per call.
 */
module Vulkan {

  /** `uint32_t`: the width of every count, index and extent in the interface. */
  const UINT32_MAX: int := 0xFFFF_FFFF
  type Uint32 = x: int | 0 <= x <= UINT32_MAX

  /** `VkResult`: the renderer only ever distinguishes VK_SUCCESS from everything else. */
  type VkResult = int
  const VK_SUCCESS: VkResult := 0

  datatype Extent2D = Extent2D(width: Uint32, height: Uint32)

  /** `VkFormat` and `VkColorSpaceKHR`, by their numeric enumerant values. */
  type Format = nat
  const VK_FORMAT_UNDEFINED: Format := 0
  const VK_FORMAT_B8G8R8A8_SRGB: Format := 50
  type ColorSpace = nat
  const VK_COLOR_SPACE_SRGB_NONLINEAR_KHR: ColorSpace := 0

  datatype SurfaceFormat = SurfaceFormat(format: Format, colorSpace: ColorSpace)

  /** `VkPresentModeKHR`, by its numeric enumerant values. */
  type PresentMode = nat
  const VK_PRESENT_MODE_IMMEDIATE_KHR: PresentMode := 0
  const VK_PRESENT_MODE_MAILBOX_KHR: PresentMode := 1
  const VK_PRESENT_MODE_FIFO_KHR: PresentMode := 2
  const VK_PRESENT_MODE_FIFO_RELAXED_KHR: PresentMode := 3

  /** `VkQueueFlags` as a bit mask. */
  type QueueFlags = bv32
  const VK_QUEUE_GRAPHICS_BIT: QueueFlags := 0x1

  /**
   * What the driver says about one queue family of a device: its
   * `VkQueueFamilyProperties::queueFlags`, and the answer of
   * `vkGetPhysicalDeviceSurfaceSupportKHR` for that family and the surface.
   */
  datatype QueueFamily = QueueFamily(queueFlags: QueueFlags, presentSupport: bool)

  /** The fields of `VkSurfaceCapabilitiesKHR` that the swapchain choices read. */
  datatype SurfaceCapabilities = SurfaceCapabilities(
    minImageCount: Uint32,
    maxImageCount: Uint32,
    currentExtent: Extent2D,
    minImageExtent: Extent2D,
    maxImageExtent: Extent2D)

  /** `SwapChainSupportDetails`: the answers of the three surface queries. */
  datatype SwapChainSupportDetails = SwapChainSupportDetails(
    capabilities: SurfaceCapabilities,
    formats: seq<SurfaceFormat>,
    presentModes: seq<PresentMode>)

  /**
   * One enumerated `VkPhysicalDevice`, described by everything the renderer asks
   * the driver about it: its queue families (in family-index order), the names
   * of its device extensions, and its swapchain support for the surface.
   */
  datatype PhysicalDevice = PhysicalDevice(
    queueFamilies: seq<QueueFamily>,
    extensions: seq<string>,
    swapChainSupport: SwapChainSupportDetails)
}
