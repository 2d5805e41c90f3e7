/** The swapchain configuration rules: which surface format, present mode, extent,
    image count and sharing mode the renderer asks for, chosen from the capability
    data the device reports for the window surface. */
module SwapchainChoice {
  import opened Vk

  datatype SurfaceFormat = SurfaceFormat(format: Format, colorSpace: ColorSpace)

  datatype SurfaceCapabilities = SurfaceCapabilities(
    minImageCount: u32,
    maxImageCount: u32,          // 0 means "no limit"
    currentExtent: Extent2D,     // width UINT32_MAX means "the window decides"
    minImageExtent: Extent2D,
    maxImageExtent: Extent2D,
    currentTransform: bv32)

  /** The graphics and present queue families found on the chosen device. */
  datatype QueueFamilyIndices = QueueFamilyIndices(graphicsFamily: Option<nat>, presentFamily: Option<nat>)

  predicate IsComplete(q: QueueFamilyIndices) {
    q.graphicsFamily.Some? && q.presentFamily.Some?
  }

  datatype SharingMode = Exclusive | Concurrent

  /** imageSharingMode together with the queue family list handed to the device. */
  datatype QueueSharing = QueueSharing(mode: SharingMode, queueFamilyIndices: seq<nat>)

  /** The decisions recorded in VkSwapchainCreateInfoKHR. */
  datatype SwapchainCreateInfo = SwapchainCreateInfo(
    minImageCount: u32,
    imageFormat: Format,
    imageColorSpace: ColorSpace,
    imageExtent: Extent2D,
    sharing: QueueSharing,
    preTransform: bv32,
    presentMode: PresentMode)

  // ---------------------------------------------------------------- surface format

  /** 8-bit BGRA in sRGB with the non-linear sRGB colour space. */
  const PREFERRED_FORMAT := SurfaceFormat(FORMAT_B8G8R8A8_SRGB, COLOR_SPACE_SRGB_NONLINEAR)

  predicate IsPreferredFormat(f: SurfaceFormat) {
    f.format == FORMAT_B8G8R8A8_SRGB && f.colorSpace == COLOR_SPACE_SRGB_NONLINEAR
  }

  /** Index of the first preferred entry at or after `from`, or |formats| if none. */
  function FirstPreferredFrom(formats: seq<SurfaceFormat>, from: nat): (k: nat)
    requires from <= |formats|
    ensures from <= k <= |formats|
    ensures k < |formats| ==> IsPreferredFormat(formats[k])
    ensures forall j :: from <= j < k ==> !IsPreferredFormat(formats[j])
    decreases |formats| - from
  {
    if from == |formats| then from
    else if IsPreferredFormat(formats[from]) then from
    else FirstPreferredFrom(formats, from + 1)
  }

  /** choose_swap_surface_format: the first preferred entry, otherwise formats[0]
      unchanged. The list must not be empty (formats[0] is read unconditionally). */
  function ChooseSurfaceFormat(formats: seq<SurfaceFormat>): (r: SurfaceFormat)
    requires |formats| > 0
    ensures r in formats
    ensures (exists j :: 0 <= j < |formats| && IsPreferredFormat(formats[j])) ==> r == PREFERRED_FORMAT
    ensures (forall j :: 0 <= j < |formats| ==> !IsPreferredFormat(formats[j])) ==> r == formats[0]
  {
    var k := FirstPreferredFrom(formats, 0);
    if k < |formats| then formats[k] else formats[0]
  }

  // ---------------------------------------------------------------- present mode

  /** The scan of choose_swap_present_mode from position `from`: MAILBOX as soon as
      it is seen, FIFO when the list runs out. */
  function ScanPresentModes(modes: seq<PresentMode>, from: nat): (r: PresentMode)
    requires from <= |modes|
    ensures r == PRESENT_MODE_MAILBOX <==> PRESENT_MODE_MAILBOX in modes[from..]
    ensures r != PRESENT_MODE_MAILBOX ==> r == PRESENT_MODE_FIFO
    decreases |modes| - from
  {
    if from == |modes| then PRESENT_MODE_FIFO
    else if modes[from] == PRESENT_MODE_MAILBOX then modes[from]
    else
      assert modes[from..] == [modes[from]] + modes[from + 1..];
      ScanPresentModes(modes, from + 1)
  }

  /** choose_swap_present_mode: MAILBOX exactly when it is offered, FIFO otherwise,
      whether or not FIFO is in the list; there is no error path. */
  function ChoosePresentMode(modes: seq<PresentMode>): (r: PresentMode)
    ensures r == PRESENT_MODE_MAILBOX <==> PRESENT_MODE_MAILBOX in modes
    ensures r != PRESENT_MODE_MAILBOX ==> r == PRESENT_MODE_FIFO
  {
    assert modes[0..] == modes;
    ScanPresentModes(modes, 0)
  }

  // ---------------------------------------------------------------- extent

  /** std::max(lo, std::min(hi, x)) on uint32_t. */
  function Clamp(lo: u32, hi: u32, x: u32): (r: u32)
    ensures lo <= hi ==> lo <= r <= hi
    ensures lo <= hi && lo <= x <= hi ==> r == x
    ensures lo <= hi && x < lo ==> r == lo
    ensures lo <= hi && hi < x ==> r == hi
    ensures hi < lo ==> r == lo
    ensures r == x || r == lo || r == hi
  {
    var m := if hi < x then hi else x;
    if lo < m then m else lo
  }

  predicate ExtentWithin(lo: Extent2D, hi: Extent2D, e: Extent2D) {
    lo.width <= e.width <= hi.width && lo.height <= e.height <= hi.height
  }

  /** choose_swap_extent. When the surface reports a fixed current extent it is used
      as it is; otherwise the window's framebuffer size (C++ ints, cast to uint32_t)
      is clamped component-wise into [minImageExtent, maxImageExtent]. */
  function ChooseExtent(caps: SurfaceCapabilities, windowWidth: int, windowHeight: int): (r: Extent2D)
    ensures caps.currentExtent.width != UINT32_MAX ==> r == caps.currentExtent
    ensures caps.currentExtent.width == UINT32_MAX ==>
      r.width == Clamp(caps.minImageExtent.width, caps.maxImageExtent.width, ToU32(windowWidth)) &&
      r.height == Clamp(caps.minImageExtent.height, caps.maxImageExtent.height, ToU32(windowHeight))
  {
    if caps.currentExtent.width != UINT32_MAX then caps.currentExtent
    else
      var w := ToU32(windowWidth);
      var h := ToU32(windowHeight);
      Extent2D(Clamp(caps.minImageExtent.width, caps.maxImageExtent.width, w),
               Clamp(caps.minImageExtent.height, caps.maxImageExtent.height, h))
  }

  /** When the window decides the extent and the bounds are ordered, the chosen
      extent lies within the bounds, and a window size already within them is kept. */
  lemma ChosenExtentWithinBounds(caps: SurfaceCapabilities, windowWidth: int, windowHeight: int)
    requires caps.currentExtent.width == UINT32_MAX
    requires caps.minImageExtent.width <= caps.maxImageExtent.width
    requires caps.minImageExtent.height <= caps.maxImageExtent.height
    ensures ExtentWithin(caps.minImageExtent, caps.maxImageExtent, ChooseExtent(caps, windowWidth, windowHeight))
    ensures 0 <= windowWidth <= UINT32_MAX as int && 0 <= windowHeight <= UINT32_MAX as int &&
            ExtentWithin(caps.minImageExtent, caps.maxImageExtent, Extent2D(windowWidth as u32, windowHeight as u32))
            ==> ChooseExtent(caps, windowWidth, windowHeight) == Extent2D(windowWidth as u32, windowHeight as u32)
  {
  }

  // ---------------------------------------------------------------- image count

  /** The image-count rule of create_swapchain: one more than the minimum (computed
      in uint32_t, so UINT32_MAX + 1 wraps to 0), capped at the maximum only when the
      maximum is non-zero. */
  function RequestedImageCount(caps: SurfaceCapabilities): (r: u32)
    ensures caps.maxImageCount > 0 ==> r <= caps.maxImageCount
    ensures caps.minImageCount < UINT32_MAX &&
            (caps.maxImageCount == 0 || caps.minImageCount < caps.maxImageCount)
            ==> r as int == caps.minImageCount as int + 1
    ensures caps.minImageCount < UINT32_MAX && 0 < caps.maxImageCount && caps.maxImageCount <= caps.minImageCount
            ==> r == caps.maxImageCount
    ensures caps.minImageCount == UINT32_MAX ==> r == 0
  {
    var imcount := ToU32(caps.minImageCount as int + 1);
    if caps.maxImageCount > 0 && imcount > caps.maxImageCount then caps.maxImageCount else imcount
  }

  /** With the bounds the device promises (minImageCount below UINT32_MAX and not
      above a non-zero maximum) the request lies in [min, max], and is strictly more
      than the minimum unless the maximum forbids it. */
  lemma RequestedImageCountInRange(caps: SurfaceCapabilities)
    requires caps.minImageCount < UINT32_MAX
    requires caps.maxImageCount == 0 || caps.minImageCount <= caps.maxImageCount
    ensures caps.minImageCount <= RequestedImageCount(caps)
    ensures caps.maxImageCount > 0 ==> RequestedImageCount(caps) <= caps.maxImageCount
    ensures RequestedImageCount(caps) == caps.minImageCount <==> 0 < caps.maxImageCount == caps.minImageCount
  {
  }

  // ---------------------------------------------------------------- sharing mode

  /** The sharing-mode choice of create_swapchain. Both family indices are read with
      optional::value() first, so a missing family is an error; distinct families
      share the images concurrently between both, equal ones use exclusive mode with
      no family list. */
  function ChooseSharing(q: QueueFamilyIndices): (r: Result<QueueSharing>)
    ensures r.Err? <==> !IsComplete(q)
    ensures r.Err? ==> r.error == MissingQueueFamily
    ensures r.Ok? ==> (r.value.mode == Concurrent <==> q.graphicsFamily != q.presentFamily)
    ensures r.Ok? && r.value.mode == Concurrent ==>
      r.value.queueFamilyIndices == [q.graphicsFamily.value, q.presentFamily.value]
    ensures r.Ok? && r.value.mode == Exclusive ==> r.value.queueFamilyIndices == []
  {
    if !IsComplete(q) then Err(MissingQueueFamily)
    else
      var g := q.graphicsFamily.value;
      var p := q.presentFamily.value;
      if q.graphicsFamily != q.presentFamily then Ok(QueueSharing(Concurrent, [g, p]))
      else Ok(QueueSharing(Exclusive, []))
  }

  // ---------------------------------------------------------------- create info

  /** Everything create_swapchain decides before it calls vkCreateSwapchainKHR. */
  function SwapchainInfoFor(caps: SurfaceCapabilities, formats: seq<SurfaceFormat>, modes: seq<PresentMode>,
                            windowWidth: int, windowHeight: int, q: QueueFamilyIndices): (r: Result<SwapchainCreateInfo>)
    requires |formats| > 0
    ensures r.Err? <==> !IsComplete(q)
    ensures r.Ok? ==>
      var fmt := ChooseSurfaceFormat(formats);
      r.value.imageFormat == fmt.format && r.value.imageColorSpace == fmt.colorSpace &&
      r.value.minImageCount == RequestedImageCount(caps) &&
      r.value.imageExtent == ChooseExtent(caps, windowWidth, windowHeight) &&
      r.value.presentMode == ChoosePresentMode(modes) &&
      r.value.preTransform == caps.currentTransform &&
      ChooseSharing(q) == Ok(r.value.sharing)
  {
    var fmt := ChooseSurfaceFormat(formats);
    var mode := ChoosePresentMode(modes);
    var ext := ChooseExtent(caps, windowWidth, windowHeight);
    var imcount := RequestedImageCount(caps);
    match ChooseSharing(q)
    case Err(e) => Err(e)
    case Ok(sharing) => Ok(SwapchainCreateInfo(imcount, fmt.format, fmt.colorSpace, ext, sharing, caps.currentTransform, mode))
  }

  // ---------------------------------------------------------------- scenarios

  /** A surface that reports minImageCount 1 and no maximum gets two images. */
  lemma MinOneNoMaxGivesTwo(caps: SurfaceCapabilities)
    requires caps.minImageCount == 1 && caps.maxImageCount == 0
    ensures RequestedImageCount(caps) == 2
  {
  }

  /** {FIFO, MAILBOX} gives MAILBOX; {FIFO} gives FIFO; an empty list gives FIFO. */
  lemma PresentModeScenarios()
    ensures ChoosePresentMode([PRESENT_MODE_FIFO, PRESENT_MODE_MAILBOX]) == PRESENT_MODE_MAILBOX
    ensures ChoosePresentMode([PRESENT_MODE_FIFO]) == PRESENT_MODE_FIFO
    ensures ChoosePresentMode([]) == PRESENT_MODE_FIFO
  {
  }
}
