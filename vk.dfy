/** Values of the Vulkan API that the renderer's decision logic reads and writes.
    Enumerations keep the numeric values they have in vulkan_core.h; flag words are
    32-bit bit-vectors; counts and extents are unsigned 32-bit integers. Every
    handle the device would create is an opaque natural number. */
module Vk {

  /** C++ uint32_t. */
  newtype u32 = x: int | 0 <= x < 0x1_0000_0000

  const UINT32_MAX: u32 := 0xFFFF_FFFF

  /** static_cast<uint32_t> of a signed C++ int: reduction modulo 2^32, so that a
      negative value wraps around to a large one. */
  function ToU32(x: int): (r: u32)
    ensures 0 <= x <= UINT32_MAX as int ==> r as int == x
    ensures (r as int - x) % 0x1_0000_0000 == 0
  {
    (x % 0x1_0000_0000) as u32
  }

  /** An opaque object created by the device (image, view, fence, semaphore, ...). */
  type Handle = nat

  datatype Option<T> = None | Some(value: T)

  /** The fatal conditions the modelled code throws on. */
  datatype Error =
    | NoSuitableMemoryType          // "failed to find suitable memory type!"
    | NoSupportedFormat             // "failed to find supported format"
    | UnsupportedLayoutTransition   // std::invalid_argument "unsupported layout transition"
    | MissingQueueFamily            // std::optional::value() on an empty optional

  datatype Result<T> = Ok(value: T) | Err(error: Error)

  /** The classes of VkResult that the frame loop distinguishes. */
  datatype VkResult =
    | Success      // VK_SUCCESS
    | Suboptimal   // VK_SUBOPTIMAL_KHR
    | OutOfDate    // VK_ERROR_OUT_OF_DATE_KHR
    | OtherError   // every other result code

  datatype Extent2D = Extent2D(width: u32, height: u32)

  // VkFormat
  type Format = int
  const FORMAT_UNDEFINED: Format := 0
  const FORMAT_R8G8B8A8_SRGB: Format := 43
  const FORMAT_B8G8R8A8_SRGB: Format := 50
  const FORMAT_D32_SFLOAT: Format := 126
  const FORMAT_D24_UNORM_S8_UINT: Format := 129
  const FORMAT_D32_SFLOAT_S8_UINT: Format := 130

  // VkColorSpaceKHR
  type ColorSpace = int
  const COLOR_SPACE_SRGB_NONLINEAR: ColorSpace := 0

  // VkPresentModeKHR
  type PresentMode = int
  const PRESENT_MODE_IMMEDIATE: PresentMode := 0
  const PRESENT_MODE_MAILBOX: PresentMode := 1
  const PRESENT_MODE_FIFO: PresentMode := 2
  const PRESENT_MODE_FIFO_RELAXED: PresentMode := 3

  // VkImageLayout
  type ImageLayout = int
  const LAYOUT_UNDEFINED: ImageLayout := 0
  const LAYOUT_DEPTH_STENCIL_ATTACHMENT_OPTIMAL: ImageLayout := 3
  const LAYOUT_SHADER_READ_ONLY_OPTIMAL: ImageLayout := 5
  const LAYOUT_TRANSFER_DST_OPTIMAL: ImageLayout := 7

  // VkImageTiling
  type ImageTiling = int
  const TILING_OPTIMAL: ImageTiling := 0
  const TILING_LINEAR: ImageTiling := 1

  // VkImageAspectFlagBits
  const ASPECT_COLOR: bv32 := 0x1
  const ASPECT_DEPTH: bv32 := 0x2
  const ASPECT_STENCIL: bv32 := 0x4

  // VkAccessFlagBits
  const ACCESS_NONE: bv32 := 0
  const ACCESS_SHADER_READ: bv32 := 0x20
  const ACCESS_DEPTH_STENCIL_ATTACHMENT_READ: bv32 := 0x200
  const ACCESS_DEPTH_STENCIL_ATTACHMENT_WRITE: bv32 := 0x400
  const ACCESS_TRANSFER_WRITE: bv32 := 0x1000

  // VkPipelineStageFlagBits
  const STAGE_TOP_OF_PIPE: bv32 := 0x1
  const STAGE_FRAGMENT_SHADER: bv32 := 0x80
  const STAGE_EARLY_FRAGMENT_TESTS: bv32 := 0x100
  const STAGE_TRANSFER: bv32 := 0x1000

  // VkFormatFeatureFlagBits
  const FORMAT_FEATURE_DEPTH_STENCIL_ATTACHMENT: bv32 := 0x200

  // VkQueueFlagBits
  const QUEUE_GRAPHICS: bv32 := 0x1

  // VkMemoryPropertyFlagBits
  const MEMORY_PROPERTY_DEVICE_LOCAL: bv32 := 0x1
  const MEMORY_PROPERTY_HOST_VISIBLE: bv32 := 0x2
  const MEMORY_PROPERTY_HOST_COHERENT: bv32 := 0x4

  /** VK_MAX_MEMORY_TYPES: the device never reports more memory types. */
  const MAX_MEMORY_TYPES: nat := 32
}
